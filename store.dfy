/** The endpoints of `main.py` over one store holding the four tables:
    users (username to password hash), sessions (token to username),
    and cashbooks with their entries. Each endpoint authenticates first
    (`require_user`), then checks its fields in the source's order, then
    changes the store or fails with nothing changed. */
module CashbookStore {
  import opened Calendar
  import opened Schema
  import opened Helpers
  import opened Ownership

  /** The body of a `get_cashbooks` response. */
  datatype Listing = Listing(username: string, names: seq<string>)

  /** The body of an `export` response. */
  datatype Archive = Archive(username: string, cashbooks: map<string, seq<Entry>>)

  /** A cashbook the caller owns: the caller, the sanitized name, and the
      cashbook's position in the table. */
  datatype Located = Located(user: string, name: string, index: nat)

  /** The session table after `logout` with the cookie `token`: the token's
      session is gone when there is a non-empty token, and nothing else
      changes. */
  function EndSession(sessions: map<string, string>, token: Option<string>): (r: map<string, string>)
    ensures OrEmpty(token) != "" ==> OrEmpty(token) !in r
    ensures forall t :: t != OrEmpty(token) ==> (t in r <==> t in sessions)
    ensures OrEmpty(token) == "" ==> r == sessions
    ensures forall t :: t in r ==> t in sessions && r[t] == sessions[t]
  {
    if OrEmpty(token) != "" && OrEmpty(token) in sessions then sessions - {OrEmpty(token)} else sessions
  }

  /** Logging out twice is logging out once. */
  lemma EndSessionIdempotent(sessions: map<string, string>, token: Option<string>)
    ensures EndSession(EndSession(sessions, token), token) == EndSession(sessions, token)
  {
  }

  /** A cashbook as the store keeps it: a sanitized name and well-formed entries. */
  predicate IsStoredCashbook(c: Cashbook) {
    IsCashbookName(c.name) && forall k :: 0 <= k < |c.entries| ==> IsWellFormed(c.entries[k])
  }

  /** The store invariant over the users and cashbooks tables. */
  ghost predicate Consistent(users: map<string, Digest>, cbs: seq<Cashbook>) {
    && UniqueNames(cbs)
    && DistinctEntryIds(cbs)
    && forall i :: 0 <= i < |cbs| ==> cbs[i].owner in users && IsStoredCashbook(cbs[i])
  }

  // ---------------- the tables after each change ----------------

  /** Adding a new, empty cashbook under a name its owner does not use keeps
      the store consistent; the new cashbook is found under its name and
      every other lookup, and every other user's list, is unchanged. */
  lemma AppendCashbookStep(users: map<string, Digest>, cbs: seq<Cashbook>, c: Cashbook)
    requires Consistent(users, cbs)
    requires c.owner in users && IsCashbookName(c.name) && c.entries == []
    requires Resolve(cbs, c.owner, c.name).None?
    ensures Consistent(users, cbs + [c])
    ensures Resolve(cbs + [c], c.owner, c.name) == Some(c)
    ensures forall v, m :: !(v == c.owner && m == c.name) ==> Resolve(cbs + [c], v, m) == Resolve(cbs, v, m)
    ensures forall v :: v != c.owner ==> Owned(cbs + [c], v) == Owned(cbs, v)
  {
    UniqueNamesAppend(cbs, c);
    DistinctAfterAppendCashbook(cbs, c);
    ResolveAfterAppend(cbs, c, c.owner, c.name);
    forall v, m | !(v == c.owner && m == c.name) ensures Resolve(cbs + [c], v, m) == Resolve(cbs, v, m) {
      ResolveAfterAppend(cbs, c, v, m);
    }
    forall v | v != c.owner ensures Owned(cbs + [c], v) == Owned(cbs, v) {
      OwnedAppendOther(cbs, c, v);
    }
    var s := cbs + [c];
    assert forall i :: 0 <= i < |cbs| ==> s[i] == cbs[i];
  }

  /** Removing cashbook `k` keeps the store consistent and takes its entries
      with it; its name no longer resolves for its owner, and every other
      lookup, and every other user's list, is unchanged. */
  lemma RemoveCashbookStep(users: map<string, Digest>, cbs: seq<Cashbook>, k: nat)
    requires Consistent(users, cbs) && k < |cbs|
    ensures var rest := WithoutCashbook(cbs, k);
      && Consistent(users, rest)
      && (forall i :: 0 <= i < |cbs[k].entries| ==> IdFresh(rest, cbs[k].entries[i].id))
      && Resolve(rest, cbs[k].owner, cbs[k].name).None?
      && (forall v, m :: !(v == cbs[k].owner && m == cbs[k].name) ==> Resolve(rest, v, m) == Resolve(cbs, v, m))
      && (forall v :: v != cbs[k].owner ==> Owned(rest, v) == Owned(cbs, v))
  {
    var rest := cbs[..k] + cbs[k + 1..];
    UniqueNamesRemove(cbs, k);
    DistinctAfterRemoveCashbook(cbs, k);
    RemovedCashbookEntriesGone(cbs, k);
    assert forall i :: 0 <= i < |rest| ==> rest[i] == cbs[if i < k then i else i + 1];
    ResolveAfterRemove(cbs, k, cbs[k].owner, cbs[k].name);
    forall v, m | !(v == cbs[k].owner && m == cbs[k].name) ensures Resolve(rest, v, m) == Resolve(cbs, v, m) {
      ResolveAfterRemove(cbs, k, v, m);
    }
    forall v | v != cbs[k].owner ensures Owned(rest, v) == Owned(cbs, v) {
      OwnedRemoveOther(cbs, k, v);
    }
  }

  /** Replacing the cashbook a lookup finds by a well-formed one with the same
      owner and name keeps the store consistent; that lookup finds the
      replacement, and every other lookup, and every other user's list, is
      unchanged. */
  lemma ReplaceCashbookStep(users: map<string, Digest>, cbs: seq<Cashbook>, k: nat, c: Cashbook)
    requires Consistent(users, cbs) && k < |cbs|
    requires c.owner == cbs[k].owner && c.name == cbs[k].name
    requires FindCashbook(cbs, c.owner, c.name) == Some(k)
    requires IsStoredCashbook(c) && DistinctEntryIds(cbs[k := c])
    ensures Consistent(users, cbs[k := c])
    ensures Resolve(cbs[k := c], c.owner, c.name) == Some(c)
    ensures forall v, m :: !(v == c.owner && m == c.name) ==> Resolve(cbs[k := c], v, m) == Resolve(cbs, v, m)
    ensures forall v :: v != c.owner ==> Owned(cbs[k := c], v) == Owned(cbs, v)
  {
    UniqueNamesUpdate(cbs, k, c);
    ResolveAfterUpdate(cbs, k, c, c.owner, c.name);
    forall v, m | !(v == c.owner && m == c.name) ensures Resolve(cbs[k := c], v, m) == Resolve(cbs, v, m) {
      ResolveAfterUpdate(cbs, k, c, v, m);
    }
    forall v | v != c.owner ensures Owned(cbs[k := c], v) == Owned(cbs, v) {
      OwnedUpdateOther(cbs, k, c, v);
    }
  }

  /** Appending a well-formed entry with an unused identifier to the
      cashbook a lookup finds gives `c`: the `ReplaceCashbookStep` facts
      hold for `c`. */
  lemma AddEntryStep(users: map<string, Digest>, cbs: seq<Cashbook>, k: nat, e: Entry, c: Cashbook)
    requires Consistent(users, cbs) && k < |cbs| && FindCashbook(cbs, cbs[k].owner, cbs[k].name) == Some(k)
    requires IsWellFormed(e) && IdFresh(cbs, e.id)
    requires c == cbs[k].(entries := cbs[k].entries + [e])
    ensures Consistent(users, cbs[k := c])
    ensures Resolve(cbs[k := c], c.owner, c.name) == Some(c)
    ensures forall v, m :: !(v == c.owner && m == c.name) ==> Resolve(cbs[k := c], v, m) == Resolve(cbs, v, m)
    ensures forall v :: v != c.owner ==> Owned(cbs[k := c], v) == Owned(cbs, v)
  {
    DistinctAfterAddEntry(cbs, k, e);
    StoredAfterAppend(cbs[k], e);
    ReplaceCashbookStep(users, cbs, k, c);
  }

  /** Removing the entry at position `a`, the one `FindEntry` finds for
      `id`, from the cashbook a lookup finds gives `c`: the
      `ReplaceCashbookStep` facts hold for `c`, which no longer holds `id`. */
  lemma RemoveEntryStep(users: map<string, Digest>, cbs: seq<Cashbook>, k: nat, id: string, a: nat, c: Cashbook)
    requires Consistent(users, cbs) && k < |cbs| && FindCashbook(cbs, cbs[k].owner, cbs[k].name) == Some(k)
    requires FindEntry(cbs[k].entries, id) == Some(a)
    requires c == WithoutEntry(cbs[k], id)
    ensures Consistent(users, cbs[k := c])
    ensures forall e :: e in c.entries ==> e.id != id
    ensures Resolve(cbs[k := c], c.owner, c.name) == Some(c)
    ensures forall v, m :: !(v == c.owner && m == c.name) ==> Resolve(cbs[k := c], v, m) == Resolve(cbs, v, m)
    ensures forall v :: v != c.owner ==> Owned(cbs[k := c], v) == Owned(cbs, v)
  {
    DistinctAfterRemoveEntry(cbs, k, a);
    RemovedEntryIsGone(cbs, k, id);
    StoredAfterRemove(cbs[k], a);
    ReplaceCashbookStep(users, cbs, k, c);
  }

  /** A stored cashbook with one more well-formed entry is still stored. */
  lemma StoredAfterAppend(c: Cashbook, e: Entry)
    requires IsStoredCashbook(c) && IsWellFormed(e)
    ensures IsStoredCashbook(c.(entries := c.entries + [e]))
  {
    var d := c.(entries := c.entries + [e]);
    assert forall i :: 0 <= i < |c.entries| ==> d.entries[i] == c.entries[i];
  }

  /** A stored cashbook with one entry fewer is still stored. */
  lemma StoredAfterRemove(c: Cashbook, a: nat)
    requires IsStoredCashbook(c) && a < |c.entries|
    ensures IsStoredCashbook(c.(entries := c.entries[..a] + c.entries[a + 1..]))
  {
    var es := c.entries[..a] + c.entries[a + 1..];
    assert forall i :: 0 <= i < |es| ==> es[i] == c.entries[if i < a then i else i + 1];
  }

  class Store {
    var users: map<string, Digest>
    var sessions: map<string, string>
    var cashbooks: seq<Cashbook>

    /** The store invariant: `(owner, name)` is unique, entry identifiers are
        unique, every cashbook belongs to a registered user and holds only
        what the checks let through. Sessions may name users that do not
        exist: `require_user` handles that case. */
    ghost predicate Valid()
      reads this
    {
      Consistent(users, cashbooks)
    }

    constructor ()
      ensures Valid()
      ensures users == map[] && sessions == map[] && cashbooks == []
    {
      users, sessions, cashbooks := map[], map[], [];
    }

    /** `require_user`: the username the session cookie `token` belongs to.
        It fails, with status 401, for a missing or empty cookie, for a token
        with no session, and for a session whose user does not exist. */
    function Authenticate(token: Option<string>): (r: Result<string>)
      reads this
      ensures r.Ok? <==> OrEmpty(token) != "" && OrEmpty(token) in sessions && sessions[OrEmpty(token)] in users
      ensures r.Ok? ==> r.value == sessions[OrEmpty(token)]
      ensures r.Err? ==> Status(r.error) == 401
      ensures r.Err? ==> (r.error == NotAuthenticated <==> OrEmpty(token) == "")
      ensures r.Err? ==> (r.error == InvalidSession <==> OrEmpty(token) != "" && OrEmpty(token) !in sessions)
      ensures r.Err? ==> (r.error == UserNotFound <==>
                            OrEmpty(token) != "" && OrEmpty(token) in sessions && sessions[OrEmpty(token)] !in users)
    {
      var t := OrEmpty(token);
      if t == "" then Err(NotAuthenticated)
      else if t !in sessions then Err(InvalidSession)
      else if sessions[t] !in users then Err(UserNotFound)
      else Ok(sessions[t])
    }

    /** The lookup every cashbook endpoint starts with: authenticate, sanitize
        the name, then `query(Cashbook).filter(Cashbook.owner == user,
        Cashbook.name == name).first()`. */
    function Locate(token: Option<string>, name: Option<string>): (r: Result<Located>)
      reads this
      ensures var auth, n := Authenticate(token), SanitizeCashbookName(name);
        && (r.Ok? <==> auth.Ok? && n.Ok? && Resolve(cashbooks, auth.value, n.value).Some?)
        && (r.Err? ==> r.error == if auth.Err? then auth.error else if n.Err? then n.error else CashbookNotFound)
      ensures r.Ok? ==> && r.value.user == Authenticate(token).value
                        && r.value.name == SanitizeCashbookName(name).value
                        && FindCashbook(cashbooks, r.value.user, r.value.name) == Some(r.value.index)
    {
      match Authenticate(token)
      case Err(e) => Err(e)
      case Ok(user) =>
        match SanitizeCashbookName(name)
        case Err(e) => Err(e)
        case Ok(n) =>
          match FindCashbook(cashbooks, user, n)
          case None => Err(CashbookNotFound)
          case Some(k) => Ok(Located(user, n, k))
    }

    /** `register`. */
    method Register(username: Option<string>, password: Option<string>) returns (r: Result<()>)
      requires Valid()
      modifies this
      ensures Valid()
      ensures sessions == old(sessions) && cashbooks == old(cashbooks)
      ensures var c := CheckRegistration(username, password);
        r == if c.Err? then Err(c.error)
             else if c.value.username in old(users) then Err(UsernameTaken)
             else Ok(())
      ensures r.Err? ==> users == old(users)
      ensures r.Ok? ==> var c := CheckRegistration(username, password).value;
        && users == old(users)[c.username := Hash(c.password)]
        && Owned(cashbooks, c.username) == []
    {
      var checked := CheckRegistration(username, password);
      if checked.Err? {
        return Err(checked.error);
      }
      var c := checked.value;
      if c.username in users {
        return Err(UsernameTaken);
      }
      OwnedByStranger(cashbooks, c.username);
      users := users[c.username := Hash(c.password)];
      r := Ok(());
    }

    /** `login`, issuing the session token `freshToken` (a new UUID). */
    method Login(username: Option<string>, password: Option<string>, freshToken: string) returns (r: Result<string>)
      requires Valid()
      requires freshToken != "" && freshToken !in sessions
      modifies this
      ensures Valid()
      ensures users == old(users) && cashbooks == old(cashbooks)
      ensures r == CheckLogin(old(users), username, password)
      ensures r.Err? ==> sessions == old(sessions)
      ensures r.Ok? ==> sessions == old(sessions)[freshToken := r.value]
      ensures r.Ok? ==> Authenticate(Some(freshToken)) == Ok(r.value)
    {
      r := CheckLogin(users, username, password);
      if r.Ok? {
        sessions := sessions[freshToken := r.value];
      }
    }

    /** `logout`: never fails. */
    method Logout(token: Option<string>)
      requires Valid()
      modifies this
      ensures Valid()
      ensures users == old(users) && cashbooks == old(cashbooks)
      ensures sessions == EndSession(old(sessions), token)
      ensures Authenticate(token).Err?
    {
      var t := OrEmpty(token);
      if t != "" {
        if t in sessions {
          sessions := sessions - {t};
        }
      }
    }

    /** `create_cashbook`. */
    method CreateCashbook(token: Option<string>, name: Option<string>) returns (r: Result<string>)
      requires Valid()
      modifies this
      ensures Valid()
      ensures users == old(users) && sessions == old(sessions)
      ensures var auth, n := Authenticate(token), SanitizeCashbookName(name);
        r == if auth.Err? then Err(auth.error)
             else if n.Err? then Err(n.error)
             else if Resolve(old(cashbooks), auth.value, n.value).Some? then Err(CashbookExists)
             else Ok(n.value)
      ensures r.Err? ==> cashbooks == old(cashbooks)
      ensures r.Ok? ==> var user := Authenticate(token).value;
        && cashbooks == old(cashbooks) + [Cashbook(user, r.value, [])]
        && Resolve(cashbooks, user, r.value) == Some(Cashbook(user, r.value, []))
        && (forall v, m :: !(v == user && m == r.value) ==> Resolve(cashbooks, v, m) == Resolve(old(cashbooks), v, m))
        && (forall v :: v != user ==> Owned(cashbooks, v) == Owned(old(cashbooks), v))
    {
      var auth := Authenticate(token);
      if auth.Err? {
        return Err(auth.error);
      }
      var user := auth.value;
      var sanitized := SanitizeCashbookName(name);
      if sanitized.Err? {
        return Err(sanitized.error);
      }
      var n := sanitized.value;
      if Resolve(cashbooks, user, n).Some? {
        return Err(CashbookExists);
      }
      var c := Cashbook(user, n, []);
      AppendCashbookStep(users, cashbooks, c);
      cashbooks := cashbooks + [c];
      r := Ok(n);
    }

    /** `delete_cashbook`: removes the cashbook and, with it, its entries. */
    method DeleteCashbook(token: Option<string>, name: Option<string>) returns (r: Result<()>)
      requires Valid()
      modifies this
      ensures Valid()
      ensures users == old(users) && sessions == old(sessions)
      ensures r == if old(Locate(token, name)).Err? then Err(old(Locate(token, name)).error) else Ok(())
      ensures r.Err? ==> cashbooks == old(cashbooks)
      ensures r.Ok? ==> var at := old(Locate(token, name)).value;
        var k, gone := at.index, old(cashbooks)[at.index].entries;
        && cashbooks == WithoutCashbook(old(cashbooks), k)
        && Resolve(cashbooks, at.user, at.name).None?
        && (forall i :: 0 <= i < |gone| ==> IdFresh(cashbooks, gone[i].id))
        && (forall v, m :: !(v == at.user && m == at.name) ==> Resolve(cashbooks, v, m) == Resolve(old(cashbooks), v, m))
        && (forall v :: v != at.user ==> Owned(cashbooks, v) == Owned(old(cashbooks), v))
    {
      var found := Locate(token, name);
      if found.Err? {
        return Err(found.error);
      }
      var k := found.value.index;
      RemoveCashbookStep(users, cashbooks, k);
      cashbooks := WithoutCashbook(cashbooks, k);
      r := Ok(());
    }

    /** `add_entry`, storing the entry under `freshId` (a new UUID) and dating
        it `today` (the current UTC date, always a valid date) when the
        request gives no date. */
    method AddEntry(token: Option<string>, cashbook: Option<string>, kind: Option<string>, date: DateField,
                    amount: AmountField, note: Option<string>, today: Date, freshId: string)
      returns (r: Result<Entry>)
      requires Valid() && IdFresh(cashbooks, freshId) && IsValidDate(today)
      modifies this
      ensures Valid()
      ensures users == old(users) && sessions == old(sessions)
      ensures r == if old(Locate(token, cashbook)).Err? then Err(old(Locate(token, cashbook)).error)
                   else CheckEntry(freshId, kind, date, amount, note, today)
      ensures r.Err? ==> cashbooks == old(cashbooks)
      ensures r.Ok? ==> var at := old(Locate(token, cashbook)).value;
        var k, before := at.index, old(cashbooks)[at.index];
        && cashbooks == old(cashbooks)[k := before.(entries := before.entries + [r.value])]
        && Resolve(cashbooks, at.user, at.name) == Some(before.(entries := before.entries + [r.value]))
        && (forall v, m :: !(v == at.user && m == at.name) ==> Resolve(cashbooks, v, m) == Resolve(old(cashbooks), v, m))
        && (forall v :: v != at.user ==> Owned(cashbooks, v) == Owned(old(cashbooks), v))
    {
      var found := Locate(token, cashbook);
      if found.Err? {
        return Err(found.error);
      }
      var k := found.value.index;
      r := CheckEntry(freshId, kind, date, amount, note, today);
      if r.Err? {
        return;
      }
      var c := cashbooks[k].(entries := cashbooks[k].entries + [r.value]);
      AddEntryStep(users, cashbooks, k, r.value, c);
      cashbooks := cashbooks[k := c];
    }

    /** `delete_entry`: removes the entry `entryId` of the named cashbook. */
    method DeleteEntry(token: Option<string>, entryId: string, cashbook: string) returns (r: Result<()>)
      requires Valid()
      modifies this
      ensures Valid()
      ensures users == old(users) && sessions == old(sessions)
      ensures var found := old(Locate(token, Some(cashbook)));
        r == if found.Err? then Err(found.error)
             else if FindEntry(old(cashbooks)[found.value.index].entries, entryId).None? then Err(EntryNotFound)
             else Ok(())
      ensures r.Err? ==> cashbooks == old(cashbooks)
      ensures r.Ok? ==> var at := old(Locate(token, Some(cashbook))).value;
        var k, before := at.index, old(cashbooks)[at.index];
        var after := WithoutEntry(before, entryId);
        && cashbooks == old(cashbooks)[k := after]
        && Resolve(cashbooks, at.user, at.name) == Some(after)
        && (forall e :: e in after.entries ==> e.id != entryId)
        && (forall v, m :: !(v == at.user && m == at.name) ==> Resolve(cashbooks, v, m) == Resolve(old(cashbooks), v, m))
        && (forall v :: v != at.user ==> Owned(cashbooks, v) == Owned(old(cashbooks), v))
    {
      var found := Locate(token, Some(cashbook));
      if found.Err? {
        return Err(found.error);
      }
      var k := found.value.index;
      var es := cashbooks[k].entries;
      var at := FindEntry(es, entryId);
      if at.None? {
        return Err(EntryNotFound);
      }
      RemoveEntryAt(found.value, entryId);
      r := Ok(());
    }

    /** The `db.delete(entry)` step of `delete_entry`: the entry `id` of the
        located cashbook is removed, the other entries keep their order. */
    method RemoveEntryAt(at: Located, id: string)
      requires Valid() && FindCashbook(cashbooks, at.user, at.name) == Some(at.index)
      requires FindEntry(cashbooks[at.index].entries, id).Some?
      modifies this
      ensures Valid()
      ensures users == old(users) && sessions == old(sessions)
      ensures var after := WithoutEntry(old(cashbooks)[at.index], id);
        && cashbooks == old(cashbooks)[at.index := after]
        && Resolve(cashbooks, at.user, at.name) == Some(after)
        && (forall e :: e in after.entries ==> e.id != id)
        && (forall v, m :: !(v == at.user && m == at.name) ==> Resolve(cashbooks, v, m) == Resolve(old(cashbooks), v, m))
        && (forall v :: v != at.user ==> Owned(cashbooks, v) == Owned(old(cashbooks), v))
    {
      var k := at.index;
      var es := cashbooks[k].entries;
      var a := FindEntry(es, id).value;
      var after := WithoutEntry(cashbooks[k], id);
      RemoveEntryStep(users, cashbooks, k, id, a, after);
      cashbooks := cashbooks[k := after];
    }

    // ---------------- read-only endpoints ----------------

    /** `get_cashbooks`: the caller's cashbook names, in table order. */
    function GetCashbooks(token: Option<string>): (r: Result<Listing>)
      reads this
      ensures Authenticate(token).Err? ==> r == Err(Authenticate(token).error)
      ensures Authenticate(token).Ok? ==> r.Ok? && r.value.username == Authenticate(token).value
      ensures r.Ok? ==> r.value.names == NamesOf(Owned(cashbooks, r.value.username))
      ensures r.Ok? ==> forall n :: n in r.value.names <==> Resolve(cashbooks, r.value.username, n).Some?
    {
      match Authenticate(token)
      case Err(e) => Err(e)
      case Ok(user) =>
        ListingMatchesLookups(cashbooks, user);
        Ok(Listing(user, NamesOf(Owned(cashbooks, user))))
    }

    /** `get_entries`: the entries of the caller's cashbook named `cashbook`,
        in order. They come from the caller's own cashbooks only. */
    function GetEntries(token: Option<string>, cashbook: string): (r: Result<seq<Entry>>)
      reads this
      ensures r.Ok? <==> Locate(token, Some(cashbook)).Ok?
      ensures r.Err? ==> r.error == Locate(token, Some(cashbook)).error
      ensures r.Ok? ==> var at := Locate(token, Some(cashbook)).value;
        r.value == Resolve(Owned(cashbooks, at.user), at.user, at.name).value.entries
      ensures Valid() && r.Ok? ==> forall e :: e in r.value ==> IsWellFormed(e)
    {
      match Locate(token, Some(cashbook))
      case Err(e) => Err(e)
      case Ok(at) =>
        ResolveReadsOnlyOwned(cashbooks, at.user, at.name);
        StoredEntriesWellFormed(cashbooks[at.index]);
        Ok(cashbooks[at.index].entries)
    }

    /** `summary_api`: the summary of the entries `get_entries` returns. */
    function SummaryApi(token: Option<string>, cashbook: string): (r: Result<Summary>)
      reads this
      ensures r.Ok? <==> GetEntries(token, cashbook).Ok?
      ensures r.Err? ==> r.error == GetEntries(token, cashbook).error
      ensures r.Ok? ==> r.value == Summarize(GetEntries(token, cashbook).value)
      ensures r.Ok? ==> r.value.balance == r.value.totalIn - r.value.totalOut
      ensures Valid() && r.Ok? ==> r.value.totalIn >= 0.0 && r.value.totalOut >= 0.0
    {
      match GetEntries(token, cashbook)
      case Err(e) => Err(e)
      case Ok(entries) => Ok(Summarize(entries))
    }

    /** `export`: every cashbook of the caller when no name is given, else
        only the named one, each under its name. */
    function Export(token: Option<string>, cashbook: Option<string>): (r: Result<Archive>)
      reads this
      ensures Authenticate(token).Err? ==> r == Err(Authenticate(token).error)
      ensures r.Ok? ==> r.value.username == Authenticate(token).value
      ensures Authenticate(token).Ok? && OrEmpty(cashbook) == "" ==>
        r == Ok(Archive(Authenticate(token).value, ExportMap(Owned(cashbooks, Authenticate(token).value))))
      ensures OrEmpty(cashbook) != "" ==>
        && (r.Ok? <==> GetEntries(token, OrEmpty(cashbook)).Ok?)
        && (r.Err? ==> r.error == GetEntries(token, OrEmpty(cashbook)).error)
        && (r.Ok? ==>
              r.value.cashbooks == map[SanitizeCashbookName(cashbook).value := GetEntries(token, OrEmpty(cashbook)).value])
      ensures Valid() && r.Ok? && OrEmpty(cashbook) == "" ==> forall n ::
        && (n in r.value.cashbooks <==> Resolve(cashbooks, r.value.username, n).Some?)
        && (n in r.value.cashbooks ==> r.value.cashbooks[n] == Resolve(cashbooks, r.value.username, n).value.entries)
    {
      match Authenticate(token)
      case Err(e) => Err(e)
      case Ok(user) =>
        if OrEmpty(cashbook) != "" then
          match GetEntries(token, OrEmpty(cashbook))
          case Err(e) => Err(e)
          case Ok(entries) => Ok(Archive(user, map[SanitizeCashbookName(cashbook).value := entries]))
        else
          ExportMatchesLookups(cashbooks, user);
          Ok(Archive(user, ExportMap(Owned(cashbooks, user))))
    }
  }

  lemma StoredEntriesWellFormed(c: Cashbook)
    ensures IsStoredCashbook(c) ==> forall e :: e in c.entries ==> IsWellFormed(e)
  {
    if IsStoredCashbook(c) {
      forall e | e in c.entries ensures IsWellFormed(e) {
        var k :| 0 <= k < |c.entries| && c.entries[k] == e;
      }
    }
  }
}
