/** The pure checks of the endpoints (cashbook names, registration fields,
    credentials, entry fields) and the balance summary. */
module Helpers {
  import opened Text
  import opened Calendar
  import opened Schema

  // ---------------- cashbook names ----------------

  const MaxNameLength: int := 64

  /** A name as the store keeps it: 1 to 64 characters, no surrounding whitespace. */
  predicate IsCashbookName(name: string) {
    1 <= |name| <= MaxNameLength && Trim(name) == name
  }

  /** `sanitize_cashbook_name`: the trimmed name, or the error for an empty or
      an over-long one. */
  function SanitizeCashbookName(name: Option<string>): (r: Result<string>)
    ensures r.Ok? <==> 1 <= |Trim(OrEmpty(name))| <= MaxNameLength
    ensures r.Ok? ==> r.value == Trim(OrEmpty(name)) && IsCashbookName(r.value)
    ensures r.Err? ==> (r.error == NameRequired <==> Trim(OrEmpty(name)) == [])
    ensures r.Err? ==> (r.error == NameTooLong <==> |Trim(OrEmpty(name))| > MaxNameLength)
  {
    var trimmed := Trim(OrEmpty(name));
    TrimIdempotent(OrEmpty(name));
    if trimmed == [] then Err(NameRequired)
    else if |trimmed| > MaxNameLength then Err(NameTooLong)
    else Ok(trimmed)
  }

  /** A sanitized name is accepted again unchanged. */
  lemma SanitizeIdempotent(raw: Option<string>, name: string)
    requires SanitizeCashbookName(raw) == Ok(name)
    ensures SanitizeCashbookName(Some(name)) == Ok(name)
  {
  }

  /** The names `sanitize_cashbook_name` returns are exactly the
      `IsCashbookName`s, each returned for itself. */
  lemma SanitizeAcceptsExactlyNames(name: string)
    ensures SanitizeCashbookName(Some(name)) == Ok(name) <==> IsCashbookName(name)
  {
  }

  // ---------------- registration and login ----------------

  const MinUsernameLength: int := 3
  const MinPasswordLength: int := 6

  datatype Credentials = Credentials(username: string, password: string)

  /** The field checks of `register`, in the order it makes them: both fields
      present, then both long enough. The username is trimmed, the password
      is taken as it is. */
  function CheckRegistration(username: Option<string>, password: Option<string>): (r: Result<Credentials>)
    ensures r.Ok? <==> |Trim(OrEmpty(username))| >= MinUsernameLength && |OrEmpty(password)| >= MinPasswordLength
    ensures r.Ok? ==> r.value == Credentials(Trim(OrEmpty(username)), OrEmpty(password))
    ensures r.Err? ==> (r.error == CredentialsRequired <==> Trim(OrEmpty(username)) == [] || OrEmpty(password) == [])
    ensures r.Err? ==> r.error in {CredentialsRequired, CredentialsTooShort}
  {
    var user := Trim(OrEmpty(username));
    var pass := OrEmpty(password);
    if user == [] || pass == [] then Err(CredentialsRequired)
    else if |user| < MinUsernameLength || |pass| < MinPasswordLength then Err(CredentialsTooShort)
    else Ok(Credentials(user, pass))
  }

  /** The credential check of `login` against the stored password hashes:
      one error whether the user is unknown or the password wrong. */
  function CheckLogin(users: map<string, Digest>, username: Option<string>, password: Option<string>): (r: Result<string>)
    ensures r.Ok? <==> Trim(OrEmpty(username)) in users && Verify(OrEmpty(password), users[Trim(OrEmpty(username))])
    ensures r.Ok? ==> r.value == Trim(OrEmpty(username))
    ensures r.Err? ==> r.error == InvalidCredentials
  {
    var user := Trim(OrEmpty(username));
    if user !in users || !Verify(OrEmpty(password), users[user]) then Err(InvalidCredentials)
    else Ok(user)
  }

  /** Logging in with the fields just registered, or with the stripped
      username and the same password, succeeds under the stripped username. */
  lemma RegisterThenLogin(users: map<string, Digest>, username: Option<string>, password: Option<string>)
    requires CheckRegistration(username, password).Ok?
    ensures var c := CheckRegistration(username, password).value;
      && CheckLogin(users[c.username := Hash(c.password)], username, password) == Ok(c.username)
      && CheckLogin(users[c.username := Hash(c.password)], Some(c.username), password) == Ok(c.username)
  {
    TrimIdempotent(OrEmpty(username));
  }

  /** A wrong password for an existing user fails exactly as an unknown
      username does, so the response does not reveal which usernames exist. */
  lemma LoginHidesUsernames(users: map<string, Digest>, known: string, unknown: string, password: string)
    requires Trim(known) in users && !Verify(password, users[Trim(known)])
    requires Trim(unknown) !in users
    ensures CheckLogin(users, Some(known), Some(password)) == CheckLogin(users, Some(unknown), Some(password)) == Err(InvalidCredentials)
  {
  }

  // ---------------- entry fields ----------------

  /** The `type` check of `add_entry`. */
  function ParseEntryType(field: Option<string>): (r: Result<EntryType>)
    ensures r.Ok? <==> field == Some("cash_in") || field == Some("cash_out")
    ensures r.Ok? ==> field == Some(TypeName(r.value))
    ensures r.Err? ==> r.error == InvalidType
  {
    if field == Some("cash_in") then Ok(CashIn)
    else if field == Some("cash_out") then Ok(CashOut)
    else Err(InvalidType)
  }

  /** Storing a type and reading it back gives the same type. */
  lemma EntryTypeRoundTrip(t: EntryType)
    ensures ParseEntryType(Some(TypeName(t))) == Ok(t)
  {
  }

  /** The date an entry gets: today's date when the field is absent, else the
      date given, provided `strptime` accepts it. */
  function EntryDate(field: DateField, today: Date): (d: Option<Date>)
    ensures d.Some? ==> IsValidDate(d.value)
    ensures field.Malformed? ==> d.None?
    ensures field.NoDate? ==> (d.Some? <==> IsValidDate(today)) && (d.Some? ==> d.value == today)
    ensures field.Ymd? ==> (d.Some? <==> IsValidDate(Date(field.year, field.month, field.day)))
    ensures field.Ymd? && d.Some? ==> d.value == Date(field.year, field.month, field.day)
  {
    var date := match field
      case NoDate => Some(today)
      case Malformed => None
      case Ymd(y, m, dd) => Some(Date(y, m, dd));
    if date.Some? && IsValidDate(date.value) then date else None
  }

  /** A request without a date never fails on the date: the clock's date is
      always valid. */
  lemma MissingDateIsToday(today: Date)
    requires IsValidDate(today)
    ensures EntryDate(NoDate, today) == Some(today)
  {
  }

  /** `float(payload.get("amount") or 0)`: `None` where `float` raises. */
  function EntryAmount(field: AmountField): (a: Option<real>)
    ensures field.NoAmount? ==> a == Some(0.0)
    ensures field.NotNumeric? ==> a.None?
    ensures field.Number? ==> a == Some(field.value)
  {
    match field
    case NoAmount => Some(0.0)
    case NotNumeric => None
    case Number(v) => Some(v)
  }

  /** What every stored entry satisfies: a valid calendar date and a
      positive amount. */
  predicate IsWellFormed(e: Entry) {
    IsValidDate(e.date) && e.amount > 0.0
  }

  /** The field checks of `add_entry` after the cashbook is found, in its
      order: the type first, then the date and the amount, which share one
      error. On success, the entry to store under the identifier `id`. */
  function CheckEntry(id: string, kind: Option<string>, date: DateField, amount: AmountField,
                      note: Option<string>, today: Date): (r: Result<Entry>)
    ensures r.Ok? <==> ParseEntryType(kind).Ok? && EntryDate(date, today).Some?
                       && EntryAmount(amount).Some? && EntryAmount(amount).value > 0.0
    ensures r.Err? ==> r.error == (if ParseEntryType(kind).Err? then InvalidType else InvalidDateOrAmount)
    ensures r.Ok? ==> && IsWellFormed(r.value)
                      && r.value.id == id
                      && kind == Some(TypeName(r.value.kind))
                      && Some(r.value.date) == EntryDate(date, today)
                      && Some(r.value.amount) == EntryAmount(amount)
                      && r.value.note == OrEmpty(note)
  {
    match ParseEntryType(kind)
    case Err(e) => Err(e)
    case Ok(t) =>
      var d := EntryDate(date, today);
      var a := EntryAmount(amount);
      if d.None? || a.None? || a.value <= 0.0 then Err(InvalidDateOrAmount)
      else Ok(Entry(id, d.value, t, a.value, OrEmpty(note)))
  }

  /** Zero and negative amounts are refused whatever the other fields say. */
  lemma NonPositiveAmountRefused(id: string, kind: Option<string>, date: DateField, v: real,
                                 note: Option<string>, today: Date)
    requires v <= 0.0
    ensures CheckEntry(id, kind, date, Number(v), note, today).Err?
    ensures CheckEntry(id, kind, date, NoAmount, note, today).Err?
  {
  }

  // ---------------- summary ----------------

  /** What one entry adds to the total of `kind`. */
  function Contribution(e: Entry, kind: EntryType): real {
    if e.kind == kind then e.amount else 0.0
  }

  /** The sum of the amounts of the entries of one type, in order: the
      generator-expression `sum` of `summarize`, on exact numbers. */
  function Total(entries: seq<Entry>, kind: EntryType): (r: real)
    ensures entries == [] ==> r == 0.0
    ensures (forall e :: e in entries ==> e.amount > 0.0) ==> r >= 0.0
    ensures (forall e :: e in entries ==> e.kind != kind) ==> r == 0.0
  {
    if entries == [] then 0.0
    else Contribution(entries[0], kind) + Total(entries[1..], kind)
  }

  datatype Summary = Summary(totalIn: real, totalOut: real, balance: real)

  /** `summarize`: cash in, cash out and their difference. */
  function Summarize(entries: seq<Entry>): (s: Summary)
    ensures s.balance == s.totalIn - s.totalOut
    ensures entries == [] ==> s == Summary(0.0, 0.0, 0.0)
    ensures (forall e :: e in entries ==> e.amount > 0.0) ==> s.totalIn >= 0.0 && s.totalOut >= 0.0
  {
    var totalIn := Total(entries, CashIn);
    var totalOut := Total(entries, CashOut);
    Summary(totalIn, totalOut, totalIn - totalOut)
  }

  /** Totals add up over a concatenation. */
  lemma {:induction false} TotalAppend(a: seq<Entry>, b: seq<Entry>, kind: EntryType)
    ensures Total(a + b, kind) == Total(a, kind) + Total(b, kind)
  {
    if a == [] {
      assert a + b == b;
    } else {
      assert (a + b)[1..] == a[1..] + b;
      TotalAppend(a[1..], b, kind);
    }
  }

  /** Taking out the entry at index `k` takes its contribution out of the total. */
  lemma TotalRemoveAt(entries: seq<Entry>, k: nat, kind: EntryType)
    requires k < |entries|
    ensures Total(entries, kind) == Total(entries[..k] + entries[k + 1..], kind) + Contribution(entries[k], kind)
  {
    var e := entries[k];
    assert entries == entries[..k] + [e] + entries[k + 1..];
    assert [e][1..] == [];
    TotalAppend(entries[..k] + [e], entries[k + 1..], kind);
    TotalAppend(entries[..k], [e], kind);
    TotalAppend(entries[..k], entries[k + 1..], kind);
  }

  lemma MultisetRemoveAt(a: seq<Entry>, b: seq<Entry>, j: nat)
    requires multiset(a) == multiset(b) && a != [] && j < |b| && b[j] == a[0]
    ensures multiset(a[1..]) == multiset(b[..j] + b[j + 1..])
  {
    assert b == b[..j] + [b[j]] + b[j + 1..];
    assert a == [a[0]] + a[1..];
    assert multiset(b) == multiset(b[..j]) + multiset{b[j]} + multiset(b[j + 1..]);
    assert multiset(a) == multiset{a[0]} + multiset(a[1..]);
    assert multiset(b[..j] + b[j + 1..]) == multiset(b[..j]) + multiset(b[j + 1..]);
    assert multiset(a[1..]) == multiset(a) - multiset{a[0]};
    assert multiset(b[..j] + b[j + 1..]) == multiset(b) - multiset{b[j]};
  }

  /** Totals do not depend on the order of the entries. */
  lemma {:induction false} TotalPermutation(a: seq<Entry>, b: seq<Entry>, kind: EntryType)
    requires multiset(a) == multiset(b)
    ensures Total(a, kind) == Total(b, kind)
    decreases |a|
  {
    if a == [] {
      assert |b| == |multiset(b)| == 0;
    } else {
      assert a[0] in multiset(b);
      var j :| 0 <= j < |b| && b[j] == a[0];
      MultisetRemoveAt(a, b, j);
      TotalPermutation(a[1..], b[..j] + b[j + 1..], kind);
      TotalRemoveAt(b, j, kind);
    }
  }

  /** The summary does not depend on the order of the entries. */
  lemma SummarizeOrderIndependent(a: seq<Entry>, b: seq<Entry>)
    requires multiset(a) == multiset(b)
    ensures Summarize(a) == Summarize(b)
  {
    TotalPermutation(a, b, CashIn);
    TotalPermutation(a, b, CashOut);
  }

  /** Appending an entry raises the total of its type by its amount and
      leaves the other total alone. */
  lemma SummarizeAppend(entries: seq<Entry>, e: Entry)
    ensures var before, after := Summarize(entries), Summarize(entries + [e]);
      && after.totalIn == before.totalIn + Contribution(e, CashIn)
      && after.totalOut == before.totalOut + Contribution(e, CashOut)
  {
    TotalAppend(entries, [e], CashIn);
    TotalAppend(entries, [e], CashOut);
    assert [e][1..] == [];
  }

  /** Removing the entry at index `k` lowers the total of its type by its
      amount and leaves the other total alone. */
  lemma SummarizeRemove(entries: seq<Entry>, k: nat)
    requires k < |entries|
    ensures var before, after := Summarize(entries), Summarize(entries[..k] + entries[k + 1..]);
      && after.totalIn == before.totalIn - Contribution(entries[k], CashIn)
      && after.totalOut == before.totalOut - Contribution(entries[k], CashOut)
  {
    TotalRemoveAt(entries, k, CashIn);
    TotalRemoveAt(entries, k, CashOut);
  }
}
