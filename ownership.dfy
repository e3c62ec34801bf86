/** The `cashbooks` table and the owner-scoped queries the endpoints make on
    it: `query(Cashbook).filter(Cashbook.owner == user, Cashbook.name == name).first()`,
    `user.cashbooks`, and the entry lookup of `delete_entry`. */
module Ownership {
  import opened Schema
  import opened Helpers

  predicate IsCashbookOf(c: Cashbook, owner: string, name: string) {
    c.owner == owner && c.name == name
  }

  /** The index of the first cashbook of `owner` named `name`, if any. */
  function FindCashbook(cbs: seq<Cashbook>, owner: string, name: string): (r: Option<nat>)
    ensures r.Some? ==> r.value < |cbs| && IsCashbookOf(cbs[r.value], owner, name)
    ensures r.Some? ==> forall j :: 0 <= j < r.value ==> !IsCashbookOf(cbs[j], owner, name)
    ensures r.None? <==> forall j :: 0 <= j < |cbs| ==> !IsCashbookOf(cbs[j], owner, name)
  {
    if cbs == [] then None
    else if IsCashbookOf(cbs[0], owner, name) then Some(0)
    else match FindCashbook(cbs[1..], owner, name)
      case None => None
      case Some(i) => Some(i + 1)
  }

  /** The cashbook the owner-scoped query returns. */
  function Resolve(cbs: seq<Cashbook>, owner: string, name: string): (r: Option<Cashbook>)
    ensures r.Some? ==> r.value in cbs && IsCashbookOf(r.value, owner, name)
    ensures r.None? <==> forall c :: c in cbs ==> !IsCashbookOf(c, owner, name)
  {
    match FindCashbook(cbs, owner, name)
    case None => None
    case Some(i) => Some(cbs[i])
  }

  /** `user.cashbooks`: the cashbooks of `owner`, in table order. */
  function Owned(cbs: seq<Cashbook>, owner: string): (r: seq<Cashbook>)
    ensures |r| <= |cbs|
    ensures forall c :: c in r <==> c in cbs && c.owner == owner
  {
    if cbs == [] then []
    else (if cbs[0].owner == owner then [cbs[0]] else []) + Owned(cbs[1..], owner)
  }

  /** The names of a list of cashbooks, in order. */
  function NamesOf(cs: seq<Cashbook>): (r: seq<string>)
    ensures |r| == |cs|
    ensures forall i :: 0 <= i < |cs| ==> r[i] == cs[i].name
  {
    seq(|cs|, i requires 0 <= i < |cs| => cs[i].name)
  }

  /** The table without the cashbook at position `k`; the others keep their
      order. */
  function WithoutCashbook(cbs: seq<Cashbook>, k: nat): (r: seq<Cashbook>)
    requires k < |cbs|
    ensures |r| == |cbs| - 1
    ensures forall i :: 0 <= i < |r| ==> r[i] == cbs[if i < k then i else i + 1]
  {
    cbs[..k] + cbs[k + 1..]
  }

  /** No owner has two cashbooks of the same name. */
  predicate UniqueNames(cbs: seq<Cashbook>) {
    forall i, j :: 0 <= i < j < |cbs| ==> !IsCashbookOf(cbs[j], cbs[i].owner, cbs[i].name)
  }

  // ---------------- per-user isolation ----------------

  lemma {:induction false} OwnedConcat(a: seq<Cashbook>, b: seq<Cashbook>, owner: string)
    ensures Owned(a + b, owner) == Owned(a, owner) + Owned(b, owner)
  {
    if a == [] {
      assert a + b == b;
    } else {
      assert (a + b)[1..] == a[1..] + b;
      OwnedConcat(a[1..], b, owner);
    }
  }

  lemma OwnedSingleton(c: Cashbook, owner: string)
    ensures Owned([c], owner) == if c.owner == owner then [c] else []
  {
    assert [c][1..] == [];
  }

  /** Replacing a cashbook of another owner by another one leaves the
      cashbooks of `owner` as they were. */
  lemma OwnedUpdateOther(cbs: seq<Cashbook>, k: nat, c: Cashbook, owner: string)
    requires k < |cbs| && cbs[k].owner != owner && c.owner != owner
    ensures Owned(cbs[k := c], owner) == Owned(cbs, owner)
  {
    assert cbs == cbs[..k] + [cbs[k]] + cbs[k + 1..];
    assert cbs[k := c] == cbs[..k] + [c] + cbs[k + 1..];
    OwnedConcat(cbs[..k] + [cbs[k]], cbs[k + 1..], owner);
    OwnedConcat(cbs[..k] + [c], cbs[k + 1..], owner);
    OwnedConcat(cbs[..k], [cbs[k]], owner);
    OwnedConcat(cbs[..k], [c], owner);
    OwnedSingleton(cbs[k], owner);
    OwnedSingleton(c, owner);
  }

  /** Removing a cashbook of another owner leaves the cashbooks of `owner`
      as they were. */
  lemma OwnedRemoveOther(cbs: seq<Cashbook>, k: nat, owner: string)
    requires k < |cbs| && cbs[k].owner != owner
    ensures Owned(cbs[..k] + cbs[k + 1..], owner) == Owned(cbs, owner)
  {
    var front, x, back := cbs[..k], cbs[k], cbs[k + 1..];
    assert cbs == front + ([x] + back);
    OwnedConcat(front, [x] + back, owner);
    OwnedConcat([x], back, owner);
    OwnedSingleton(x, owner);
    OwnedConcat(front, back, owner);
  }

  /** Appending a cashbook of another owner leaves the cashbooks of `owner`
      as they were. */
  lemma OwnedAppendOther(cbs: seq<Cashbook>, c: Cashbook, owner: string)
    requires c.owner != owner
    ensures Owned(cbs + [c], owner) == Owned(cbs, owner)
  {
    OwnedConcat(cbs, [c], owner);
    OwnedSingleton(c, owner);
  }

  /** An owner-scoped lookup reads nothing but the owner's own cashbooks. */
  lemma {:induction false} ResolveReadsOnlyOwned(cbs: seq<Cashbook>, owner: string, name: string)
    ensures Resolve(cbs, owner, name) == Resolve(Owned(cbs, owner), owner, name)
  {
    if cbs != [] {
      var x, tail := cbs[0], cbs[1..];
      ResolveReadsOnlyOwned(tail, owner, name);
      assert cbs == [x] + tail;
      ResolveCons(x, tail, owner, name);
      OwnedCons(x, tail, owner);
      if x.owner == owner {
        ResolveCons(x, Owned(tail, owner), owner, name);
      }
    }
  }

  lemma OwnedCons(c: Cashbook, cbs: seq<Cashbook>, owner: string)
    ensures Owned([c] + cbs, owner) == if c.owner == owner then [c] + Owned(cbs, owner) else Owned(cbs, owner)
  {
    assert ([c] + cbs)[1..] == cbs;
  }

  /** The lookup in a list with one more cashbook in front. */
  lemma ResolveCons(c: Cashbook, cbs: seq<Cashbook>, owner: string, name: string)
    ensures Resolve([c] + cbs, owner, name) ==
      if IsCashbookOf(c, owner, name) then Some(c) else Resolve(cbs, owner, name)
  {
    assert ([c] + cbs)[1..] == cbs;
  }

  /** Non-interference: two tables that agree on the cashbooks of `owner`
      give `owner` the same answer to every lookup. */
  lemma ResolveNonInterference(cbs1: seq<Cashbook>, cbs2: seq<Cashbook>, owner: string, name: string)
    requires Owned(cbs1, owner) == Owned(cbs2, owner)
    ensures Resolve(cbs1, owner, name) == Resolve(cbs2, owner, name)
  {
    ResolveReadsOnlyOwned(cbs1, owner, name);
    ResolveReadsOnlyOwned(cbs2, owner, name);
  }

  /** A name that only other users own resolves to "not found". */
  lemma ForeignNameNotFound(cbs: seq<Cashbook>, owner: string, name: string)
    requires forall c :: c in cbs && c.name == name ==> c.owner != owner
    ensures Resolve(cbs, owner, name) == None
  {
  }

  /** Cashbook names are per-user: another user's cashbook of the same name
      changes nothing `owner` can see under that name. */
  lemma NamespacesAreSeparate(cbs: seq<Cashbook>, owner: string, other: string, name: string)
    requires owner != other
    ensures Resolve(cbs + [Cashbook(other, name, [])], owner, name) == Resolve(cbs, owner, name)
  {
    OwnedAppendOther(cbs, Cashbook(other, name, []), owner);
    ResolveNonInterference(cbs + [Cashbook(other, name, [])], cbs, owner, name);
  }

  /** Owners of no cashbook see an empty list. */
  lemma OwnedByStranger(cbs: seq<Cashbook>, owner: string)
    requires forall c :: c in cbs ==> c.owner != owner
    ensures Owned(cbs, owner) == []
  {
    if Owned(cbs, owner) != [] {
      assert Owned(cbs, owner)[0] in Owned(cbs, owner);
    }
  }

  /** Listing and lookup agree: a name is listed for `owner` exactly when it
      resolves for `owner`. */
  lemma ListedIffResolvable(cbs: seq<Cashbook>, owner: string, name: string)
    ensures name in NamesOf(Owned(cbs, owner)) <==> Resolve(cbs, owner, name).Some?
  {
    var os := Owned(cbs, owner);
    var names := NamesOf(os);
    if name in names {
      var i :| 0 <= i < |names| && names[i] == name;
      assert os[i] in os;
    }
    if Resolve(cbs, owner, name).Some? {
      var c := Resolve(cbs, owner, name).value;
      assert c in os;
      var i :| 0 <= i < |os| && os[i] == c;
      assert names[i] == name;
    }
  }

  lemma ListingMatchesLookups(cbs: seq<Cashbook>, owner: string)
    ensures forall name :: name in NamesOf(Owned(cbs, owner)) <==> Resolve(cbs, owner, name).Some?
  {
    forall name ensures name in NamesOf(Owned(cbs, owner)) <==> Resolve(cbs, owner, name).Some? {
      ListedIffResolvable(cbs, owner, name);
    }
  }

  // ---------------- lookups after a change ----------------

  /** After appending a new cashbook of `owner` named `name` that `owner` did
      not have, the lookup finds the new one; every other lookup is unchanged. */
  lemma ResolveAfterAppend(cbs: seq<Cashbook>, c: Cashbook, owner: string, name: string)
    requires Resolve(cbs, c.owner, c.name).None?
    ensures Resolve(cbs + [c], owner, name) ==
      if IsCashbookOf(c, owner, name) then Some(c) else Resolve(cbs, owner, name)
  {
    var r := FindCashbook(cbs + [c], owner, name);
    var r0 := FindCashbook(cbs, owner, name);
    if r0.Some? {
      assert (cbs + [c])[r0.value] == cbs[r0.value];
      assert r == r0;
    } else if IsCashbookOf(c, owner, name) {
      assert (cbs + [c])[|cbs|] == c;
      assert r == Some(|cbs|);
    } else {
      assert r.None?;
    }
  }

  /** The first match is what the lookup finds. */
  lemma FindAt(cbs: seq<Cashbook>, owner: string, name: string, i: nat)
    requires i < |cbs| && IsCashbookOf(cbs[i], owner, name)
    requires forall j :: 0 <= j < i ==> !IsCashbookOf(cbs[j], owner, name)
    ensures FindCashbook(cbs, owner, name) == Some(i)
  {
  }

  /** Replacing the cashbook a lookup finds by one with the same owner and
      name: that lookup finds the replacement, every other lookup is unchanged. */
  lemma ResolveAfterUpdate(cbs: seq<Cashbook>, k: nat, c: Cashbook, owner: string, name: string)
    requires k < |cbs| && c.owner == cbs[k].owner && c.name == cbs[k].name
    requires FindCashbook(cbs, c.owner, c.name) == Some(k)
    ensures Resolve(cbs[k := c], owner, name) ==
      if IsCashbookOf(c, owner, name) then Some(c) else Resolve(cbs, owner, name)
  {
    var s := cbs[k := c];
    assert forall j :: 0 <= j < |s| ==> IsCashbookOf(s[j], owner, name) == IsCashbookOf(cbs[j], owner, name);
    var r0 := FindCashbook(cbs, owner, name);
    if r0.Some? {
      FindAt(s, owner, name, r0.value);
    }
  }

  /** Once the only cashbook of `owner` named `name` is removed, the lookup
      finds nothing; every other lookup is unchanged. */
  lemma ResolveAfterRemove(cbs: seq<Cashbook>, k: nat, owner: string, name: string)
    requires UniqueNames(cbs) && k < |cbs|
    ensures Resolve(cbs[..k] + cbs[k + 1..], owner, name) ==
      if IsCashbookOf(cbs[k], owner, name) then None else Resolve(cbs, owner, name)
  {
    var rest := cbs[..k] + cbs[k + 1..];
    assert forall j :: 0 <= j < |rest| ==> rest[j] == cbs[if j < k then j else j + 1];
    if IsCashbookOf(cbs[k], owner, name) {
      forall j | 0 <= j < |rest| ensures !IsCashbookOf(rest[j], owner, name) {
        var i := if j < k then j else j + 1;
        assert i != k && rest[j] == cbs[i];
        if i < k { assert !IsCashbookOf(cbs[k], cbs[i].owner, cbs[i].name); }
      }
    } else {
      var r0 := FindCashbook(cbs, owner, name);
      if r0.Some? {
        var j := r0.value;
        FindAt(rest, owner, name, if j < k then j else j - 1);
      }
    }
  }

  // ---------------- unique names ----------------

  lemma UniqueNamesAppend(cbs: seq<Cashbook>, c: Cashbook)
    requires UniqueNames(cbs) && Resolve(cbs, c.owner, c.name).None?
    ensures UniqueNames(cbs + [c])
  {
    var s := cbs + [c];
    forall i, j | 0 <= i < j < |s| ensures !IsCashbookOf(s[j], s[i].owner, s[i].name) {
      if j == |cbs| { assert s[i] in cbs; }
    }
  }

  lemma UniqueNamesUpdate(cbs: seq<Cashbook>, k: nat, c: Cashbook)
    requires UniqueNames(cbs) && k < |cbs| && c.owner == cbs[k].owner && c.name == cbs[k].name
    ensures UniqueNames(cbs[k := c])
  {
  }

  lemma UniqueNamesRemove(cbs: seq<Cashbook>, k: nat)
    requires UniqueNames(cbs) && k < |cbs|
    ensures UniqueNames(cbs[..k] + cbs[k + 1..])
  {
    var s := cbs[..k] + cbs[k + 1..];
    assert forall i :: 0 <= i < |s| ==> s[i] == (if i < k then cbs[i] else cbs[i + 1]);
  }

  /** The rest of a table with unique names has unique names, and none of
      it clashes with the first cashbook. */
  lemma UniqueNamesTail(cbs: seq<Cashbook>)
    requires UniqueNames(cbs) && cbs != []
    ensures UniqueNames(cbs[1..])
    ensures forall c :: c in cbs[1..] ==> !IsCashbookOf(c, cbs[0].owner, cbs[0].name)
  {
    var t := cbs[1..];
    assert forall i :: 0 <= i < |t| ==> t[i] == cbs[i + 1];
  }

  /** No two cashbooks of the list share a name. */
  predicate DistinctNames(cs: seq<Cashbook>) {
    forall i, j :: 0 <= i < j < |cs| ==> cs[i].name != cs[j].name
  }

  lemma DistinctNamesCons(c: Cashbook, cs: seq<Cashbook>)
    requires DistinctNames(cs) && forall d :: d in cs ==> d.name != c.name
    ensures DistinctNames([c] + cs)
  {
    var s := [c] + cs;
    forall i, j | 0 <= i < j < |s| ensures s[i].name != s[j].name {
      assert s[j] == cs[j - 1] && cs[j - 1] in cs;
      if i > 0 { assert s[i] == cs[i - 1]; }
    }
  }

  /** Within one owner all names differ. */
  lemma {:induction false} OwnedUniqueNames(cbs: seq<Cashbook>, owner: string)
    requires UniqueNames(cbs)
    ensures DistinctNames(Owned(cbs, owner))
  {
    if cbs != [] {
      var x, rest := cbs[0], cbs[1..];
      UniqueNamesTail(cbs);
      OwnedUniqueNames(rest, owner);
      assert cbs == [x] + rest;
      OwnedCons(x, rest, owner);
      if x.owner == owner {
        DistinctNamesCons(x, Owned(rest, owner));
      }
    }
  }

  // ---------------- export ----------------

  /** The dictionary `{c.name: c.entries for c in cs}`: one key per name, the
      last cashbook of a name giving its value. */
  function ExportMap(cs: seq<Cashbook>): (m: map<string, seq<Entry>>)
    ensures forall n :: n in m <==> exists i :: 0 <= i < |cs| && cs[i].name == n
  {
    if cs == [] then map[]
    else
      var init := cs[..|cs| - 1];
      var last := cs[|cs| - 1];
      assert forall i :: 0 <= i < |init| ==> init[i] == cs[i];
      ExportMap(init)[last.name := last.entries]
  }

  /** A cashbook whose name no later cashbook repeats keeps its entries in
      the dictionary. */
  lemma {:induction false} ExportMapValue(cs: seq<Cashbook>, i: nat)
    requires i < |cs| && forall j :: i < j < |cs| ==> cs[j].name != cs[i].name
    ensures cs[i].name in ExportMap(cs) && ExportMap(cs)[cs[i].name] == cs[i].entries
  {
    if i < |cs| - 1 {
      var init := cs[..|cs| - 1];
      assert init[i] == cs[i];
      assert forall j :: i < j < |init| ==> init[j] == cs[j];
      ExportMapValue(init, i);
    }
  }

  /** The full export of `owner` holds exactly the cashbooks `owner` can
      resolve, each with its entries. */
  lemma ExportAgreesWithResolve(cbs: seq<Cashbook>, owner: string, name: string)
    requires UniqueNames(cbs)
    ensures var m := ExportMap(Owned(cbs, owner));
      && (name in m <==> Resolve(cbs, owner, name).Some?)
      && (name in m ==> m[name] == Resolve(cbs, owner, name).value.entries)
  {
    var os := Owned(cbs, owner);
    OwnedUniqueNames(cbs, owner);
    ResolveReadsOnlyOwned(cbs, owner, name);
    var r := FindCashbook(os, owner, name);
    if r.Some? {
      var i := r.value;
      assert forall j :: i < j < |os| ==> os[j].name != os[i].name;
      ExportMapValue(os, i);
    } else {
      forall i | 0 <= i < |os| ensures os[i].name != name {
        assert os[i] in os;
      }
    }
  }

  lemma ExportMatchesLookups(cbs: seq<Cashbook>, owner: string)
    ensures UniqueNames(cbs) ==> forall name ::
      && (name in ExportMap(Owned(cbs, owner)) <==> Resolve(cbs, owner, name).Some?)
      && (name in ExportMap(Owned(cbs, owner)) ==> ExportMap(Owned(cbs, owner))[name] == Resolve(cbs, owner, name).value.entries)
  {
    if UniqueNames(cbs) {
      forall name
        ensures && (name in ExportMap(Owned(cbs, owner)) <==> Resolve(cbs, owner, name).Some?)
                && (name in ExportMap(Owned(cbs, owner)) ==> ExportMap(Owned(cbs, owner))[name] == Resolve(cbs, owner, name).value.entries)
      {
        ExportAgreesWithResolve(cbs, owner, name);
      }
    }
  }

  // ---------------- entries ----------------

  /** The index of the first entry with identifier `id`, if any. */
  function FindEntry(entries: seq<Entry>, id: string): (r: Option<nat>)
    ensures r.Some? ==> r.value < |entries| && entries[r.value].id == id
    ensures r.Some? ==> forall j :: 0 <= j < r.value ==> entries[j].id != id
    ensures r.None? <==> forall j :: 0 <= j < |entries| ==> entries[j].id != id
  {
    if entries == [] then None
    else if entries[0].id == id then Some(0)
    else match FindEntry(entries[1..], id)
      case None => None
      case Some(i) => Some(i + 1)
  }

  /** The cashbook `c` without the first entry whose identifier is `id`
      (unchanged when there is none); the other entries keep their order. */
  function WithoutEntry(c: Cashbook, id: string): (r: Cashbook)
    ensures r.owner == c.owner && r.name == c.name
    ensures FindEntry(c.entries, id).None? ==> r == c
    ensures FindEntry(c.entries, id).Some? ==> var a := FindEntry(c.entries, id).value;
      && |r.entries| == |c.entries| - 1
      && forall i :: 0 <= i < |r.entries| ==> r.entries[i] == c.entries[if i < a then i else i + 1]
  {
    match FindEntry(c.entries, id)
    case None => c
    case Some(a) => c.(entries := c.entries[..a] + c.entries[a + 1..])
  }

  /** Deleting an entry takes its amount out of the total of its type and
      leaves the other total alone. */
  lemma SummarizeWithoutEntry(c: Cashbook, id: string)
    requires FindEntry(c.entries, id).Some?
    ensures var gone := c.entries[FindEntry(c.entries, id).value];
      var before, after := Summarize(c.entries), Summarize(WithoutEntry(c, id).entries);
      && after.totalIn == before.totalIn - Contribution(gone, CashIn)
      && after.totalOut == before.totalOut - Contribution(gone, CashOut)
  {
    SummarizeRemove(c.entries, FindEntry(c.entries, id).value);
  }

  /** No identifier is used by two entries of the table. */
  predicate DistinctEntryIds(cbs: seq<Cashbook>) {
    forall i, k, j, l ::
      (0 <= i < |cbs| && 0 <= k < |cbs[i].entries| && 0 <= j < |cbs| && 0 <= l < |cbs[j].entries|
       && cbs[i].entries[k].id == cbs[j].entries[l].id) ==> i == j && k == l
  }

  /** `id` is used by no entry of the table. */
  predicate IdFresh(cbs: seq<Cashbook>, id: string) {
    forall i, k :: 0 <= i < |cbs| && 0 <= k < |cbs[i].entries| ==> cbs[i].entries[k].id != id
  }

  lemma DistinctAfterAppendCashbook(cbs: seq<Cashbook>, c: Cashbook)
    requires DistinctEntryIds(cbs) && c.entries == []
    ensures DistinctEntryIds(cbs + [c])
  {
    var s := cbs + [c];
    assert forall i :: 0 <= i < |cbs| ==> s[i] == cbs[i];
  }

  lemma DistinctAfterRemoveCashbook(cbs: seq<Cashbook>, k: nat)
    requires DistinctEntryIds(cbs) && k < |cbs|
    ensures DistinctEntryIds(cbs[..k] + cbs[k + 1..])
  {
    var s := cbs[..k] + cbs[k + 1..];
    assert forall i :: 0 <= i < |s| ==> s[i] == cbs[if i < k then i else i + 1];
  }

  lemma DistinctAfterAddEntry(cbs: seq<Cashbook>, k: nat, e: Entry)
    requires DistinctEntryIds(cbs) && k < |cbs| && IdFresh(cbs, e.id)
    ensures DistinctEntryIds(cbs[k := cbs[k].(entries := cbs[k].entries + [e])])
  {
    var s := cbs[k := cbs[k].(entries := cbs[k].entries + [e])];
    forall i, a, j, b | 0 <= i < |s| && 0 <= a < |s[i].entries| && 0 <= j < |s| && 0 <= b < |s[j].entries|
                        && s[i].entries[a].id == s[j].entries[b].id
      ensures i == j && a == b
    {
      var old1 := i == k && a == |cbs[k].entries|;
      var old2 := j == k && b == |cbs[k].entries|;
      if !old1 { assert s[i].entries[a] == cbs[i].entries[a]; }
      if !old2 { assert s[j].entries[b] == cbs[j].entries[b]; }
    }
  }

  lemma DistinctAfterRemoveEntry(cbs: seq<Cashbook>, k: nat, a: nat)
    requires DistinctEntryIds(cbs) && k < |cbs| && a < |cbs[k].entries|
    ensures DistinctEntryIds(cbs[k := cbs[k].(entries := cbs[k].entries[..a] + cbs[k].entries[a + 1..])])
  {
    var es := cbs[k].entries;
    var s := cbs[k := cbs[k].(entries := es[..a] + es[a + 1..])];
    forall i, x | 0 <= i < |s| && 0 <= x < |s[i].entries|
      ensures s[i].entries[x] == cbs[i].entries[if i == k && x >= a then x + 1 else x]
    {
    }
  }

  /** In a table with distinct identifiers, removing the entry found for `id`
      leaves no entry with that identifier in the cashbook. */
  lemma RemovedEntryIsGone(cbs: seq<Cashbook>, k: nat, id: string)
    requires DistinctEntryIds(cbs) && k < |cbs| && FindEntry(cbs[k].entries, id).Some?
    ensures var es, a := cbs[k].entries, FindEntry(cbs[k].entries, id).value;
      forall e :: e in es[..a] + es[a + 1..] ==> e.id != id
  {
    var es, a := cbs[k].entries, FindEntry(cbs[k].entries, id).value;
    var rest := es[..a] + es[a + 1..];
    forall e | e in rest ensures e.id != id {
      var x :| 0 <= x < |rest| && rest[x] == e;
      var y := if x < a then x else x + 1;
      assert rest[x] == es[y] && y != a;
    }
  }
  /** Deleting cashbook `k` deletes its entries: with distinct identifiers,
      none of their identifiers is still in the table. */
  lemma RemovedCashbookEntriesGone(cbs: seq<Cashbook>, k: nat)
    requires DistinctEntryIds(cbs) && k < |cbs|
    ensures forall x :: 0 <= x < |cbs[k].entries| ==> IdFresh(cbs[..k] + cbs[k + 1..], cbs[k].entries[x].id)
  {
    var s := cbs[..k] + cbs[k + 1..];
    assert forall i :: 0 <= i < |s| ==> s[i] == cbs[if i < k then i else i + 1];
  }
}
