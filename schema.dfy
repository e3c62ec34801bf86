/** The records of the cashbook service (users, sessions, cashbooks and
    entries), the request fields as they arrive, and the errors the
    endpoints raise. */
module Schema {
  import opened Calendar

  datatype Option<T> = None | Some(value: T)

  /** Python's `x or ""` on an optional string field: an absent, null or
      empty field all become the empty string. */
  function OrEmpty(field: Option<string>): (s: string)
    ensures field.Some? ==> s == field.value
    ensures field.None? ==> s == ""
  {
    match field
    case None => ""
    case Some(v) => v
  }

  /** Every `HTTPException` the core raises, one constructor per message. */
  datatype Error =
    | NotAuthenticated       // 401 "Not authenticated"
    | InvalidSession         // 401 "Invalid session"
    | UserNotFound           // 401 "User not found"
    | NameRequired           // 400 "Cashbook name required"
    | NameTooLong            // 400 "Cashbook name too long"
    | CredentialsRequired    // 400 "Username and password required"
    | CredentialsTooShort    // 400 "Username or password too short"
    | UsernameTaken          // 409 "Username already exists"
    | InvalidCredentials     // 401 "Invalid credentials"
    | CashbookExists         // 409 "Cashbook already exists"
    | CashbookNotFound       // 404 "Cashbook not found"
    | InvalidType            // 400 "Invalid type"
    | InvalidDateOrAmount    // 400 "Invalid date or amount"
    | EntryNotFound          // 404 "Entry not found"

  /** The HTTP status code each error is raised with. */
  function Status(e: Error): (code: int)
    ensures code in {400, 401, 404, 409}
    ensures code == 401 <==> e in {NotAuthenticated, InvalidSession, UserNotFound, InvalidCredentials}
    ensures code == 404 <==> e in {CashbookNotFound, EntryNotFound}
    ensures code == 409 <==> e in {UsernameTaken, CashbookExists}
  {
    match e
    case NotAuthenticated | InvalidSession | UserNotFound | InvalidCredentials => 401
    case CashbookNotFound | EntryNotFound => 404
    case UsernameTaken | CashbookExists => 409
    case _ => 400
  }

  datatype Result<T> = Ok(value: T) | Err(error: Error)

  /** The stored password hash. passlib's salted PBKDF2 is not modelled:
      a digest is an injective stand-in that records which password it was
      made from, which is all the core relies on. */
  datatype Digest = Digest(of: string)

  /** `pwd_context.verify(password, digest)`. */
  predicate Verify(password: string, digest: Digest) {
    digest.of == password
  }

  /** `pwd_context.hash(password)`: the digest verifies the password it was
      made from and no other. */
  function Hash(password: string): (d: Digest)
    ensures Verify(password, d)
    ensures forall other :: Verify(other, d) ==> other == password
  {
    Digest(password)
  }

  /** A digest verifies exactly the password it was made from. */
  lemma VerifyHash(password: string, other: string)
    ensures Verify(password, Hash(other)) <==> password == other
  {
  }

  /** Entry types, stored as the strings "cash_in" and "cash_out". */
  datatype EntryType = CashIn | CashOut

  function TypeName(t: EntryType): string {
    match t
    case CashIn => "cash_in"
    case CashOut => "cash_out"
  }

  /** A stored row of the `entries` table. */
  datatype Entry = Entry(id: string, date: Date, kind: EntryType, amount: real, note: string)

  /** A stored row of the `cashbooks` table, with its entries in order. The
      owner is the owning user's username, which is unique among users. */
  datatype Cashbook = Cashbook(owner: string, name: string, entries: seq<Entry>)

  /** The `date` field of an add-entry request: absent, null or empty; a
      string that does not have the shape `YYYY-MM-DD`; or one that does, split
      into its three numbers. */
  datatype DateField = NoDate | Malformed | Ymd(year: int, month: int, day: int)

  /** The `amount` field: absent, null or empty (which Python's
      `payload.get("amount") or 0` turns into 0); a value `float` refuses; or
      the number `float` reads. */
  datatype AmountField = NoAmount | NotNumeric | Number(value: real)
}
