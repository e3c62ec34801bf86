# CashBook+ core, modelled in Dafny

CashBook+ is a small bookkeeping web service written in Python with FastAPI
and SQLAlchemy (`main.py`). Users register and log in. A login issues a session
token, which the browser sends back as a cookie. Each user keeps any number of
named cashbooks. A cashbook holds an ordered list of cash-in and cash-out
entries.

This project models the logic under the HTTP and ORM plumbing:

- the four tables (users, sessions, cashbooks, entries) as one store object;
- the session check `require_user` and the name check `sanitize_cashbook_name`;
- the validators of `register`, `login` and `add_entry`;
- the `summarize` totals;
- every endpoint that reads or changes the store.

It proves properties of the model. Each endpoint makes its checks in the
source's order and fails with the source's error and status code, changing
nothing when it fails. On success it changes exactly what the source changes
and keeps the store invariant. That invariant has three parts:

- an owner never has two cashbooks with the same name;
- entry identifiers are unique;
- stored entries have a real calendar date and a positive amount.

Every lookup is scoped to its owner. One user's requests never see or change
another user's cashbooks.

Files, one module each:

- `text.dfy` (`Text`): Python's `str.strip()` and its characterisation.
- `calendar.dfy` (`Calendar`): the dates `strptime(s, "%Y-%m-%d")` accepts.
- `schema.dfy` (`Schema`): the records, the request fields, the errors with their status codes, and the password-hash stand-in.
- `helpers.dfy` (`Helpers`): the pure validators and `summarize`.
- `ownership.dfy` (`Ownership`): the owner-scoped queries on the cashbooks table, and lemmas about isolation and about lookups after each kind of change.
- `store.dfy` (`CashbookStore`): the class `Store` and its endpoint methods, with the step lemmas that keep its invariant.

Modelling choices:

- Users are identified by their username, which is unique in the users table. A cashbook records its owner's username.
- The cashbooks table is one sequence in insertion order, and each cashbook's entries are a sequence in insertion order. The database itself promises no order; see Left out.
- Entries sit inside their cashbook, so deleting a cashbook deletes its entries, as the cascade on the relationship does.
- The UUIDs (session tokens and entry identifiers) are parameters. Each one must be unused.
- The current UTC date is also a parameter.
- Read-only endpoints are functions that read the store. Endpoints that change it are methods that modify it.

Three behaviours of `main.py` worth knowing (the model keeps the first; the other two are under Left out):

- A session has no server-side expiry. Only the cookie has a seven-day max-age, so a session row stays valid until logout.
- Amounts are compared as `amount <= 0` on a Python float, so `"nan"` and `"inf"` pass the check and `"-inf"` does not. The model has finite amounts only; see Left out.
- Nothing serialises concurrent requests.

## Model

| member | source | states |
|---|---|---|
| Text.Trim | main.py:98 | `str.strip()`: the result is never longer than the input; TrimIsStrip and StripIsUnique pin down exactly what it keeps |
| Text.TrimIsStrip | main.py:98 | `strip()` cuts only whitespace on the left and only whitespace on the right, and what it keeps neither starts nor ends with whitespace |
| Text.StripIsUnique | main.py:98 | any two results that cut only whitespace and keep an unpadded middle are equal, so `Trim` is the one such result |
| Text.TrimEmptyIffAllSpace | main.py:98-100 | the stripped name is empty exactly when the input is all whitespace (the "name required" case) |
| Text.TrimUnpadded | main.py:98 | a string with no whitespace at either end strips to itself |
| Text.TrimIdempotent | main.py:98 | stripping twice equals stripping once |
| Calendar.IsValidDate | main.py:210 | the dates `strptime` accepts: a valid date has a day between 1 and 31, and a valid 29 February falls in a leap year |
| Calendar.DaysInMonth | main.py:210 | every month has 28 to 31 days, and February has 29 exactly in leap years |
| Calendar.LeapDay | main.py:210 | 29 February is a valid date exactly in Gregorian leap years |
| Calendar.DayBounds | main.py:210 | days 1 to 28 of months 1 to 12 of years 1 to 9999 are valid; a day outside 1..31 or a month outside 1..12 never is |
| Schema.Status | main.py:85-243 | the status code of each error: 401 for the four authentication errors, 404 for missing cashbooks and entries, 409 for taken usernames and existing cashbooks, 400 for the rest |
| Schema.Hash | main.py:142-153 | `pwd_context.hash` with `pwd_context.verify`: the digest verifies the password it was made from and no other |
| Schema.VerifyHash | main.py:142-153 | verifying against the hash of a password succeeds exactly for that password |
| Helpers.SanitizeCashbookName | main.py:97-103 | with a missing or null name read as "": succeeds exactly when the stripped name has 1 to 64 characters and returns that stripped name; fails "required" exactly when it is empty and "too long" exactly when it is over 64 |
| Helpers.SanitizeIdempotent | main.py:97-103 | a name the check returned passes the check again unchanged |
| Helpers.SanitizeAcceptsExactlyNames | main.py:97-103 | the check returns a name for itself exactly when that name has 1 to 64 characters and no surrounding whitespace |
| Helpers.CheckRegistration | main.py:134-139 | with missing fields read as "": succeeds exactly when the stripped username has at least 3 characters and the password at least 6; the "required" error exactly when either is empty, else "too short" |
| Helpers.CheckLogin | main.py:150-154 | succeeds exactly when the stripped username exists and its hash verifies the password, and returns that username; every failure is "invalid credentials" |
| Helpers.RegisterThenLogin | main.py:132-154 | after a successful registration, logging in with the same fields, or with the stripped username and the same password, succeeds under the stripped username |
| Helpers.LoginHidesUsernames | main.py:152-154 | a wrong password for an existing user and an unknown username get the same error |
| Helpers.ParseEntryType | main.py:205-207 | accepts exactly "cash_in" and "cash_out", and fails with "invalid type" otherwise |
| Helpers.EntryTypeRoundTrip | main.py:205-217 | a stored type string parses back to the same type |
| Helpers.EntryDate | main.py:209-210 | a missing date becomes today; a given date must be a valid calendar date; a malformed one fails |
| Helpers.MissingDateIsToday | main.py:209 | with the clock's (always valid) date, a request without a date gets today's date and never fails on it |
| Helpers.CheckEntry | main.py:205-217 | succeeds exactly when the type and date pass and the amount reads as a positive number (a missing amount reads as 0, a non-numeric one fails); a type error comes before a date/amount error; the new entry carries the given id, type, date and amount, and a note defaulting to "" |
| Helpers.NonPositiveAmountRefused | main.py:211-215 | a zero, negative or missing amount is refused whatever the other fields hold |
| Helpers.Total | main.py:106-107 | the total of an empty list is 0, the total of positive amounts is non-negative, and a type with no entries totals 0 |
| Helpers.Summarize | main.py:105-108 | the balance is cash in minus cash out; an empty list gives three zeros; positive amounts give non-negative totals |
| Helpers.TotalAppend | main.py:106-107 | the total over a concatenation is the sum of the totals of its parts |
| Helpers.TotalPermutation | main.py:106-107 | totals do not depend on the order of the entries |
| Helpers.SummarizeOrderIndependent | main.py:105-108 | two lists with the same entries in any order give the same summary |
| Helpers.SummarizeAppend | main.py:105-108 | appending an entry adds its amount to the total of its type and leaves the other total alone |
| Helpers.SummarizeRemove | main.py:105-108 | removing an entry subtracts its amount from the total of its type and leaves the other total alone |
| Ownership.FindCashbook | main.py:192 | the position of the first cashbook with that owner and name, and none exactly when no cashbook has both |
| Ownership.Resolve | main.py:192 | the owner-scoped query returns a cashbook of the table with that owner and name, and finds none exactly when there is none |
| Ownership.WithoutCashbook | main.py:195 | deleting the cashbook at one position keeps every other cashbook, in order |
| Ownership.Owned | main.py:186-187 | `user.cashbooks`: exactly the table's cashbooks with that owner |
| Ownership.OwnedUpdateOther | main.py:217-218 | changing another user's cashbook leaves this user's cashbooks as they were |
| Ownership.OwnedRemoveOther | main.py:195 | deleting another user's cashbook leaves this user's cashbooks as they were |
| Ownership.OwnedAppendOther | main.py:179-180 | adding another user's cashbook leaves this user's cashbooks as they were |
| Ownership.ResolveReadsOnlyOwned | main.py:202 | the owner filter means a lookup gives the same answer on the owner's own cashbooks alone |
| Ownership.ResolveNonInterference | main.py:226 | two tables that agree on a user's cashbooks give that user the same lookups |
| Ownership.ForeignNameNotFound | main.py:235-237 | a name that only other users own is "not found" for this user |
| Ownership.NamespacesAreSeparate | main.py:177-180 | another user's cashbook of the same name changes nothing this user finds under that name |
| Ownership.OwnedByStranger | main.py:186-187 | a user who owns no cashbook lists none |
| Ownership.ListedIffResolvable | main.py:186-192 | a name is listed for a user exactly when the user's lookup of it succeeds |
| Ownership.ListingMatchesLookups | main.py:186-192 | the same for every name at once |
| Ownership.ResolveAfterAppend | main.py:179-180 | after adding a new cashbook, its owner's lookup of its name finds it, and every other lookup is unchanged |
| Ownership.ResolveAfterUpdate | main.py:217-218 | after replacing the cashbook a lookup finds with one of the same owner and name, that lookup finds the replacement and every other lookup is unchanged |
| Ownership.ResolveAfterRemove | main.py:195 | after deleting a cashbook whose owner and name are unique, its lookup finds nothing and every other lookup is unchanged |
| Ownership.UniqueNamesAppend | main.py:177-180 | adding a cashbook under a name its owner does not use keeps names unique per owner |
| Ownership.UniqueNamesUpdate | main.py:217-218 | replacing a cashbook by one with the same owner and name keeps names unique per owner |
| Ownership.UniqueNamesRemove | main.py:195 | deleting a cashbook keeps names unique per owner |
| Ownership.OwnedUniqueNames | main.py:270 | one user's cashbooks all have different names, so the export dictionary loses none of them |
| Ownership.ExportMap | main.py:270 | the keys of `{c.name: ... for c in cs}` are exactly the names in the list |
| Ownership.ExportMapValue | main.py:270 | a name that no later cashbook repeats maps to that cashbook's entries |
| Ownership.ExportAgreesWithResolve | main.py:267-271 | a name is in the full export exactly when the user's lookup of it succeeds, with the entries that lookup finds |
| Ownership.ExportMatchesLookups | main.py:267-271 | the same for every name at once |
| Ownership.FindEntry | main.py:238 | the position of the first entry with that id, and none exactly when no entry has it |
| Ownership.WithoutEntry | main.py:238-241 | deleting the found entry drops exactly that position and keeps the other entries in order; with no such entry nothing changes |
| Ownership.SummarizeWithoutEntry | main.py:241 | deleting an entry subtracts its amount from the summary total of its type |
| Ownership.DistinctAfterAppendCashbook | main.py:179-180 | a new empty cashbook keeps entry ids unique |
| Ownership.DistinctAfterRemoveCashbook | main.py:195 | deleting a cashbook keeps entry ids unique |
| Ownership.DistinctAfterAddEntry | main.py:217-218 | adding an entry with an unused id keeps entry ids unique |
| Ownership.DistinctAfterRemoveEntry | main.py:241 | deleting an entry keeps entry ids unique |
| Ownership.RemovedEntryIsGone | main.py:238-241 | with unique ids, no entry with the deleted id remains in the cashbook |
| Ownership.RemovedCashbookEntriesGone | main.py:55 | the cascade: no id of a deleted cashbook's entries remains anywhere in the table |
| CashbookStore.EndSession | main.py:164-169 | the session of a non-empty token is gone and every other session is kept; an empty or missing token changes nothing |
| CashbookStore.EndSessionIdempotent | main.py:162-171 | logging out twice is the same as logging out once |
| CashbookStore.AppendCashbookStep | main.py:179-181 | adding an empty cashbook under an unused name for a registered user keeps the store invariant; the new cashbook is found and every other lookup and user list is unchanged |
| CashbookStore.RemoveCashbookStep | main.py:195-196 | deleting a cashbook keeps the invariant and takes its entries with it; its lookup finds nothing and every other lookup and user list is unchanged |
| CashbookStore.ReplaceCashbookStep | main.py:218-219 | replacing a found cashbook by a valid one with the same owner and name keeps the invariant, and no other lookup or user list changes |
| CashbookStore.AddEntryStep | main.py:217-219 | appending a valid entry with an unused id keeps the invariant, and the lookup finds the longer cashbook |
| CashbookStore.RemoveEntryStep | main.py:238-242 | deleting the found entry keeps the invariant, and no entry with that id remains |
| CashbookStore.StoredAfterAppend | main.py:217-218 | a stored cashbook with one more valid entry is still valid |
| CashbookStore.StoredAfterRemove | main.py:241 | a stored cashbook with one entry fewer is still valid |
| CashbookStore.StoredEntriesWellFormed | main.py:229-230 | every entry of a stored cashbook has a valid date and a positive amount |
| CashbookStore.Store.constructor | main.py:42-75 | the store starts with empty tables and satisfies the invariant |
| CashbookStore.Store.Authenticate | main.py:85-95 | succeeds exactly when the token is non-empty, has a session, and that session's user exists, and returns that user; otherwise fails with 401: "not authenticated" exactly for an empty or missing token, "invalid session" exactly for a token with no session, "user not found" exactly for a session whose user does not exist |
| CashbookStore.Store.Locate | main.py:201-204 | authenticate, then sanitize the name, then look it up among the caller's cashbooks; succeeds exactly when all three do, otherwise fails with the first error |
| CashbookStore.Store.Register | main.py:132-146 | field errors, then "username taken"; on success adds exactly one user, whose hash is the hash of the password and who owns no cashbook; sessions and cashbooks are unchanged, and on failure so are users |
| CashbookStore.Store.Login | main.py:148-160 | the result is the credential check; on success adds exactly one session, mapping the fresh token to the stripped username, which then authenticates; on failure nothing changes |
| CashbookStore.Store.Logout | main.py:162-171 | never fails; removes only the token's session, changes nothing else, and leaves the token unable to authenticate |
| CashbookStore.Store.CreateCashbook | main.py:174-183 | authentication, then name, then "already exists" for the caller's own name only; on success appends one empty cashbook for the caller, which the caller then finds, and no other lookup or user's list changes |
| CashbookStore.Store.DeleteCashbook | main.py:189-197 | fails exactly as the lookup does; on success removes that one cashbook and every id of its entries, its name no longer resolves, and nothing else changes |
| CashbookStore.Store.AddEntry | main.py:199-221 | with a valid clock date: lookup errors come first, then the entry checks; on success appends exactly the checked entry to the caller's cashbook, keeps the other entries and cashbooks, and keeps the invariant |
| CashbookStore.Store.DeleteEntry | main.py:232-243 | lookup errors, then "entry not found" exactly when the cashbook has no entry with that id; on success removes that entry only, keeps the rest in order, leaves no entry with that id, and changes no other cashbook |
| CashbookStore.Store.RemoveEntryAt | main.py:238-242 | the deletion step on a located cashbook: the new table, the lookup that finds the shorter cashbook, and that nothing else changes |
| CashbookStore.Store.GetCashbooks | main.py:185-187 | fails exactly as authentication does; otherwise lists the names of the caller's cashbooks, one per cashbook in table order, and lists exactly the names the caller can look up |
| CashbookStore.Store.GetEntries | main.py:223-230 | fails exactly as the lookup does; otherwise returns the caller's cashbook's entries, read from the caller's own cashbooks only, each with a valid date and a positive amount |
| CashbookStore.Store.SummaryApi | main.py:245-251 | fails exactly as `get_entries` does; otherwise it is the summary of exactly the entries `get_entries` returns, so its balance is cash in minus cash out, both totals are non-negative, and it does not depend on entry order |
| CashbookStore.Store.Export | main.py:253-273 | the archive is under the caller's username; with no name, maps exactly the caller's resolvable names to their entries; with a name, fails as `get_entries` does or maps only the sanitized name to its entries; authentication comes first |

## Left out

- HTTP plumbing is not modelled: routing, CORS, static pages, the health endpoint, and the JSON shapes of responses (`main.py:7-29`, `111-129`, `275-277`). Each endpoint returns its result or its error instead.
- Cookies are not modelled. The token is a parameter. The cookie's attributes (httpOnly, SameSite, the seven-day max-age) and `delete_cookie` are browser-side.
- The database wiring is not modelled: the engine, `get_db`, commit and refresh. Each endpoint is one atomic step on the store.
- Row order is not modelled as the database gives it. The relationships (`main.py:47`, `55`) and the owner-scoped queries (`main.py:192`, `202`, `226`, `235`, `248`, `257`) have no `order_by`, so the database promises no order for `user.cashbooks`, for `cb.entries`, or for which row `first()` returns. The model assumes insertion order. GetCashbooks (the order of the names), GetEntries and Export (the order of entries), DeleteEntry and WithoutEntry ("the remaining entries keep their order") and FindCashbook (which match is first) rely on that assumption. With unique names per owner, `first()` has only one row to choose from.
- Concurrency is not modelled. The service does not serialise requests. Nothing in the ORM schema forbids two cashbooks with the same owner and name, so two concurrent `create_cashbook` calls could both pass the existence check. The model is sequential.
- Integer row ids of users and cashbooks are not modelled. Users are keyed by their unique username, and cashbooks by their position in the table.
- `init_db.py` is not part of this model.
- Schema.Hash: passlib's salted PBKDF2 is modelled as an injective function of the password. Salting, deprecation and timing are not modelled.
- CashbookStore.Store.Login: the UUID token is a parameter that must be non-empty and unused. The model does not generate it.
- CashbookStore.Store.AddEntry: the UUID entry id is a parameter that must be unused, and today's UTC date is a parameter.
- Helpers.Summarize: sums exact real amounts and does not apply `round(..., 2)` to the totals or the balance. Floating-point summation error and rounding are not modelled.
- Helpers.EntryAmount: `float()` parsing is not modelled. Its result is given as the AmountField: missing or falsy, not numeric, or a finite number (a JSON number or a numeric string). `float("nan")` and `float("inf")` pass `amount <= 0` and are stored by the source; `float("-inf")` is refused. The model has no NaN or infinities, so in it every stored amount is a finite positive number.
- Helpers.EntryDate: `strptime`'s character-level parsing is not modelled. The given date arrives as malformed or as its year, month and day, and only the calendar check is kept. An entry stores the date, not the original string.
- Payload fields other than the date and the amount are modelled as optional strings. The date is a DateField: a truthy non-string date makes `strptime` raise, which Malformed covers. The amount is an AmountField: any value `float()` reads, including `true` as 1.0, is a Number. JSON numbers, booleans, arrays or objects sent as a name, username, password or note are not modelled (a non-string type is refused like any other wrong type). A numeric name or username makes `.strip()` raise (`main.py:98`, `134`), and a numeric password makes `len(password)` raise (`main.py:138`); each ends in an unhandled server error (500).
- Sessions whose user no longer exists are allowed by the invariant. No endpoint deletes users, but `require_user` has a branch for that case, and the model keeps it reachable.
