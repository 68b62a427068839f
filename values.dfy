/** Vocabulary shared by both implementations of the job board: optional
    values, the JSON values a request body carries, the error codes the
    handlers answer with, and the primitives (base64 decoding, bcrypt) that
    the handlers call but that are not part of this model. */
module Values {

  datatype Option<+T> = None | Some(value: T)

  /** Keys of the SERIAL primary-key columns: positive integers. */
  type Id = n: int | 1 <= n witness 1

  /** A value of a parsed JSON request body. A key missing from the body map
      is JavaScript's `undefined`. */
  datatype Json = JNull | JBool(b: bool) | JNum(n: int) | JStr(s: string)

  /** JavaScript truthiness of a body value. */
  predicate Truthy(v: Json)
  {
    match v
    case JNull => false
    case JBool(b) => b
    case JNum(n) => n != 0
    case JStr(s) => s != ""
  }

  /** `!!body.key`: an absent key reads as `undefined`, which is falsy. */
  predicate FieldTruthy(body: map<string, Json>, key: string)
  {
    key in body && Truthy(body[key])
  }

  /** `body.key` where `undefined` and `null` both reach the database as NULL. */
  function FieldOrNull(body: map<string, Json>, key: string): Json
  {
    if key in body then body[key] else JNull
  }

  /** The `error.code` strings of the JSON error replies. */
  datatype ErrorCode =
    | Unauthorized        // UNAUTHORIZED
    | AuthFailed          // AUTH_FAILED
    | ServerConfig        // SERVER_CONFIG
    | InvalidStatus       // INVALID_STATUS
    | NotFound            // NOT_FOUND
    | DbError             // DB_ERROR
    | ValidationError     // VALIDATION_ERROR
    | MissingCompany      // MISSING_COMPANY
    | InvalidCompany      // INVALID_COMPANY
    | UserExists          // USER_EXISTS
    | NoCompany           // NO_COMPANY
    | NoFields            // NO_FIELDS
    | Forbidden           // FORBIDDEN
    | InvalidCredentials  // INVALID_CREDENTIALS
    | ConfigError         // CONFIG_ERROR
    | ServerError         // SERVER_ERROR
    | MissingFields       // MISSING_FIELDS
    | DuplicateEntry      // DUPLICATE_ENTRY
    | FileRequired        // FILE_REQUIRED
    | InvalidEmail        // INVALID_EMAIL

  /** The HTTP status each code is sent with (the same in every handler). */
  function HttpStatus(c: ErrorCode): int
  {
    match c
    case Unauthorized | AuthFailed | InvalidCredentials => 401
    case NoCompany | Forbidden => 403
    case NotFound => 404
    case UserExists => 409
    case ServerConfig | DbError | ConfigError | ServerError => 500
    case InvalidStatus | ValidationError | MissingCompany | InvalidCompany
      | NoFields | MissingFields | DuplicateEntry | FileRequired | InvalidEmail => 400
  }

  /** What a handler answers: a payload, or an error reply. */
  datatype Result<+T> = Ok(value: T) | Err(code: ErrorCode)

  /** Outcome of `bcrypt.compare(password, hash)`: it resolves to true or
      false, or rejects (for instance on a hash it cannot read). */
  datatype Comparison = Match | Mismatch | Fails

  /** The library calls the handlers make, passed in as values:
      `decode` is `Buffer.from(token, 'base64').toString('utf8')`,
      `compare` is `bcrypt.compare`, `hash` is `bcrypt.hash(password, 10)`. */
  datatype Primitives = Primitives(
    decode: string -> string,
    compare: (string, string) -> Comparison,
    hash: string -> string)

  /** bcrypt's own promise: a password matches the hash made from it. */
  ghost predicate HashVerifies(p: Primitives)
  {
    forall pw :: p.compare(pw, p.hash(pw)) == Match
  }
}
