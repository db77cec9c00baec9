/** The account repository: registration under the unique username and
    token, token resolution with its expiry check, the sparse UPDATE that
    always stamps `last_seen`, and deletion, which first hands the
    account's public decks to the deleted-user account. */
module AccountRepository {
  import opened Outcome
  import opened Schema
  import opened SqlText

  /** The columns an account is created or updated with; an empty text or
      the zero time is a field left out of an update. */
  datatype AccountFields = AccountFields(
    username: string, passwd: string, email: string, name: string,
    token: string, tokenExpire: Time)

  const AccountHead := "UPDATE ACCOUNT SET"
  const AccountKey := ["acc_id"]

  /** True when another row already holds the username or the token: the
      two unique keys of ACCOUNT. */
  predicate Taken(accounts: map<AccId, Account>, username: string, token: string) {
    exists b :: b in accounts && (accounts[b].username == username || accounts[b].token == token)
  }

  // ---------------------------------------------------------------------
  // Create

  /** The row `INSERT INTO ACCOUNT (...)` stores: the six given columns,
      with `last_seen` taking its default, the insert time. */
  function NewRow(f: AccountFields, now: Time): Account {
    Account(f.username, f.passwd, f.email, f.name, f.token, f.tokenExpire, now)
  }

  /** `Create`: a username or token already in use is error 1062, reported
      as `AccountExists` with nothing written; otherwise the row gets the
      next id. */
  method Create(db: Store, f: AccountFields, now: Time) returns (r: Result<AccId>)
    requires db.Valid()
    modifies db
    ensures db.Valid()
    ensures Taken(old(db.accounts), f.username, f.token) ==>
      r == Err(AccountExists) && db.Snapshot() == old(db.Snapshot())
    ensures !Taken(old(db.accounts), f.username, f.token) ==>
      && r == Ok(old(db.nextAccount))
      && db.Snapshot() == old(db.Snapshot()).(
           accounts := old(db.accounts)[old(db.nextAccount) := NewRow(f, now)],
           nextAccount := old(db.nextAccount) + 1)
  {
    if Taken(db.accounts, f.username, f.token) {
      return Err(AccountExists);
    }
    var id := db.nextAccount;
    db.accounts := db.accounts[id := NewRow(f, now)];
    db.nextAccount := id + 1;
    r := Ok(id);
  }

  // ---------------------------------------------------------------------
  // ByToken

  /** `SELECT * FROM ACCOUNT WHERE token = ? AND token_expire >= NOW()`:
      the account holding the token while the token has not expired;
      anything else is `AccountNotFound`. */
  function ByToken(t: Tables, token: string, now: Time): (r: Result<(AccId, Account)>)
    requires UniqueKeys(t.accounts)
    ensures r.Ok? <==> exists a :: a in t.accounts && t.accounts[a].token == token && t.accounts[a].tokenExpire >= now
    ensures r.Ok? ==> r.value.0 in t.accounts && r.value.1 == t.accounts[r.value.0]
    ensures r.Ok? ==> r.value.1.token == token && r.value.1.tokenExpire >= now
    ensures r.Err? ==> r.error == AccountNotFound
  {
    match TokenAccount(t.accounts, token)
    case None => Err(AccountNotFound)
    case Some(a) => if t.accounts[a].tokenExpire >= now then Ok((a, t.accounts[a])) else Err(AccountNotFound)
  }

  /** A freshly created account resolves by its token until the token
      expires. */
  lemma CreatedAccountResolves(t: Tables, f: AccountFields, now: Time, later: Time)
    requires Consistent(t) && !Taken(t.accounts, f.username, f.token)
    requires later <= f.tokenExpire
    ensures var t' := t.(accounts := t.accounts[t.nextAccount := NewRow(f, now)]);
      UniqueKeys(t'.accounts) && ByToken(t', f.token, later) == Ok((t.nextAccount, NewRow(f, now)))
  {
    var t' := t.(accounts := t.accounts[t.nextAccount := NewRow(f, now)]);
    assert t.nextAccount !in t.accounts;
    assert UniqueKeys(t'.accounts);
    assert t'.accounts[t.nextAccount].token == f.token;
    var r := TokenAccount(t'.accounts, f.token);
    assert r.Some?;
  }

  /** The expiry is checked here only: the other repositories resolve a
      token through `(SELECT acc_id FROM ACCOUNT WHERE token = ?)`, which
      still finds the account after its token expired. */
  lemma ExpiredTokenStillResolves(t: Tables, a: AccId, now: Time)
    requires UniqueKeys(t.accounts) && a in t.accounts && t.accounts[a].tokenExpire < now
    ensures ByToken(t, t.accounts[a].token, now) == Err(AccountNotFound)
    ensures TokenAccount(t.accounts, t.accounts[a].token) == Some(a)
  {
  }

  // ---------------------------------------------------------------------
  // Update

  /** `updateField`: a zero time or an empty text is skipped; otherwise
      ` field = ?` is written, after a comma unless the text is still the
      head, and the value is appended to the arguments. */
  method UpdateField(q: UpdateQuery, field: string, value: Field)
    requires q.Valid() && q.head == AccountHead && ColumnName(field) && !value.FlagField?
    modifies q
    ensures q.Valid()
    ensures q.sets == old(q.sets) + Present(field, value)
  {
    if value.TimeField? && value.t == ZeroTime {
      return;
    }
    if value.TextField? && value.s == "" {
      return;
    }
    q.HeadPrefix();
    var needsComma := q.query != AccountHead;
    q.Append(needsComma, field, Bound(value));
  }

  /** The assignments `Update` writes, in the order of its calls; the last
      one is the clock reading for `last_seen`. */
  function AccountSets(f: AccountFields, now: Time): seq<Assignment> {
    ProfileSets(f) + CredentialSets(f, now)
  }

  /** The first four calls: the profile columns. */
  function ProfileSets(f: AccountFields): seq<Assignment> {
    Present("username", TextField(f.username)) + Present("passwd", TextField(f.passwd)) +
    Present("email", TextField(f.email)) + Present("name", TextField(f.name))
  }

  /** The last three calls: the token, its expiry and the clock reading. */
  function CredentialSets(f: AccountFields, now: Time): seq<Assignment> {
    Present("token", TextField(f.token)) + Present("token_expire", TimeField(f.tokenExpire)) +
    Present("last_seen", TimeField(now))
  }

  lemma ProfileNames()
    ensures ColumnName("username") && ColumnName("passwd") && ColumnName("email") && ColumnName("name")
  {
  }

  lemma CredentialNames()
    ensures ColumnName("token") && ColumnName("token_expire") && ColumnName("last_seen")
  {
  }

  lemma AccountKeyNames()
    ensures '?' !in AccountHead && forall k :: k in AccountKey ==> ColumnName(k)
  {
  }

  /** The seven `updateField` calls of `Update`. */
  method SetAccountFields(q: UpdateQuery, f: AccountFields, now: Time)
    requires q.Valid() && q.head == AccountHead && q.sets == []
    modifies q
    ensures q.Valid() && q.sets == AccountSets(f, now)
  {
    SetProfileFields(q, f);
    assert q.sets == ProfileSets(f);
    SetCredentialFields(q, f, now);
  }

  method SetProfileFields(q: UpdateQuery, f: AccountFields)
    requires q.Valid() && q.head == AccountHead
    modifies q
    ensures q.Valid() && q.sets == old(q.sets) + ProfileSets(f)
  {
    ghost var before := q.sets;
    ProfileNames();
    UpdateField(q, "username", TextField(f.username));
    UpdateField(q, "passwd", TextField(f.passwd));
    UpdateField(q, "email", TextField(f.email));
    UpdateField(q, "name", TextField(f.name));
    assert q.sets == before + Present("username", TextField(f.username)) + Present("passwd", TextField(f.passwd)) +
      Present("email", TextField(f.email)) + Present("name", TextField(f.name));
    Regroup(before, Present("username", TextField(f.username)), Present("passwd", TextField(f.passwd)),
            Present("email", TextField(f.email)), Present("name", TextField(f.name)));
  }

  lemma Regroup(b: seq<Assignment>, p: seq<Assignment>, q: seq<Assignment>, r: seq<Assignment>, s: seq<Assignment>)
    ensures b + p + q + r + s == b + (p + q + r + s)
  {
  }

  method SetCredentialFields(q: UpdateQuery, f: AccountFields, now: Time)
    requires q.Valid() && q.head == AccountHead
    modifies q
    ensures q.Valid() && q.sets == old(q.sets) + CredentialSets(f, now)
  {
    ghost var before := q.sets;
    CredentialNames();
    UpdateField(q, "token", TextField(f.token));
    UpdateField(q, "token_expire", TimeField(f.tokenExpire));
    UpdateField(q, "last_seen", TimeField(now));
    assert q.sets == before + Present("token", TextField(f.token)) + Present("token_expire", TimeField(f.tokenExpire)) +
      Present("last_seen", TimeField(now));
  }

  /** The text and arguments of `Update`'s statement. Because the clock
      reading is never the zero time, the SET list is never empty and the
      statement always parses. */
  method BuildUpdate(id: AccId, f: AccountFields, now: Time) returns (query: string, args: seq<Value>)
    requires now > ZeroTime
    ensures ColumnNames(AccountSets(f, now)) && AccountSets(f, now) != []
    ensures query == Statement(AccountHead, AccountSets(f, now), AccountKey)
    ensures query != AccountHead + Where(AccountKey)
    ensures args == Values(AccountSets(f, now)) + [Number(id)]
    ensures CountChar('?', query) == |args|
  {
    var q := new UpdateQuery(AccountHead);
    SetAccountFields(q, f, now);
    AccountKeyNames();
    q.Finish(AccountKey, [Number(id)]);
    query, args := q.query, q.args;
    assert CredentialSets(f, now)[|CredentialSets(f, now)| - 1] == ("last_seen", Moment(now));
    BareStatement(AccountHead, AccountSets(f, now), AccountKey);
  }

  /** The value of a writable column of an account row. */
  function Cell(a: Account, column: string): Option<Value> {
    if column == "username" then Some(Text(a.username))
    else if column == "passwd" then Some(Text(a.passwd))
    else if column == "email" then Some(Text(a.email))
    else if column == "name" then Some(Text(a.name))
    else if column == "token" then Some(Text(a.token))
    else if column == "token_expire" then Some(Moment(a.tokenExpire))
    else if column == "last_seen" then Some(Moment(a.lastSeen))
    else None
  }

  /** The row after the UPDATE. */
  function Patch(a: Account, f: AccountFields, now: Time): Account {
    Account(if f.username != "" then f.username else a.username,
            if f.passwd != "" then f.passwd else a.passwd,
            if f.email != "" then f.email else a.email,
            if f.name != "" then f.name else a.name,
            if f.token != "" then f.token else a.token,
            if f.tokenExpire != ZeroTime then f.tokenExpire else a.tokenExpire,
            now)
  }

  /** A column is assigned exactly when its field was supplied, and
      `last_seen` always is. */
  lemma AccountColumns(f: AccountFields, now: Time)
    requires now > ZeroTime
    ensures forall column :: column in Names(AccountSets(f, now)) <==>
      || (column == "username" && f.username != "")
      || (column == "passwd" && f.passwd != "")
      || (column == "email" && f.email != "")
      || (column == "name" && f.name != "")
      || (column == "token" && f.token != "")
      || (column == "token_expire" && f.tokenExpire != ZeroTime)
      || column == "last_seen"
  {
    ProfileColumns(f);
    CredentialColumns(f, now);
    NamesAppend(ProfileSets(f), CredentialSets(f, now));
  }

  lemma ProfileColumns(f: AccountFields)
    ensures forall column :: column in Names(ProfileSets(f)) <==>
      || (column == "username" && f.username != "")
      || (column == "passwd" && f.passwd != "")
      || (column == "email" && f.email != "")
      || (column == "name" && f.name != "")
  {
    var p1, p2 := Present("username", TextField(f.username)), Present("passwd", TextField(f.passwd));
    var p3, p4 := Present("email", TextField(f.email)), Present("name", TextField(f.name));
    NamesPresent("username", TextField(f.username));
    NamesPresent("passwd", TextField(f.passwd));
    NamesPresent("email", TextField(f.email));
    NamesPresent("name", TextField(f.name));
    NamesAppend(p1, p2);
    NamesAppend(p1 + p2, p3);
    NamesAppend(p1 + p2 + p3, p4);
    assert Names(ProfileSets(f)) == Names(p1) + Names(p2) + Names(p3) + Names(p4);
  }

  lemma CredentialColumns(f: AccountFields, now: Time)
    requires now > ZeroTime
    ensures forall column :: column in Names(CredentialSets(f, now)) <==>
      || (column == "token" && f.token != "")
      || (column == "token_expire" && f.tokenExpire != ZeroTime)
      || column == "last_seen"
  {
    var p5, p6 := Present("token", TextField(f.token)), Present("token_expire", TimeField(f.tokenExpire));
    var p7 := Present("last_seen", TimeField(now));
    NamesPresent("token", TextField(f.token));
    NamesPresent("token_expire", TimeField(f.tokenExpire));
    NamesPresent("last_seen", TimeField(now));
    NamesAppend(p5, p6);
    NamesAppend(p5 + p6, p7);
    assert Names(CredentialSets(f, now)) == Names(p5) + Names(p6) + Names(p7);
  }

  /** The UPDATE writes exactly its SET list: every assigned column holds
      the bound value and every other column keeps its value. */
  lemma PatchWritesSetList(a: Account, f: AccountFields, now: Time)
    requires now > ZeroTime
    ensures forall s :: s in AccountSets(f, now) ==> Cell(Patch(a, f, now), s.0) == Some(s.1)
    ensures forall column :: column !in Names(AccountSets(f, now)) ==> Cell(Patch(a, f, now), column) == Cell(a, column)
  {
    AccountColumns(f, now);
    var b := Patch(a, f, now);
    forall s | s in AccountSets(f, now) ensures Cell(b, s.0) == Some(s.1) {
      if s in ProfileSets(f) {
        ProfileCell(a, f, now, s);
      } else {
        CredentialCell(a, f, now, s);
      }
    }
  }

  lemma ProfileCell(a: Account, f: AccountFields, now: Time, s: Assignment)
    requires s in ProfileSets(f)
    ensures Cell(Patch(a, f, now), s.0) == Some(s.1)
  {
    if s in Present("username", TextField(f.username)) {
    } else if s in Present("passwd", TextField(f.passwd)) {
    } else if s in Present("email", TextField(f.email)) {
    } else {
    }
  }

  lemma CredentialCell(a: Account, f: AccountFields, now: Time, s: Assignment)
    requires s in CredentialSets(f, now)
    ensures Cell(Patch(a, f, now), s.0) == Some(s.1)
  {
    if s in Present("token", TextField(f.token)) {
    } else if s in Present("token_expire", TimeField(f.tokenExpire)) {
    } else {
    }
  }

  /** Replacing a row whose new username and token no other row holds
      keeps both keys unique. */
  lemma ReplaceRowUnique(accounts: map<AccId, Account>, id: AccId, row: Account)
    requires UniqueKeys(accounts) && !Taken(accounts - {id}, row.username, row.token)
    ensures UniqueKeys(accounts[id := row])
  {
    var m := accounts[id := row];
    forall x, y | x in m && y in m && x != y
      ensures m[x].token != m[y].token && m[x].username != m[y].username
    {
      if x == id {
        assert y in accounts - {id};
      } else if y == id {
        assert x in accounts - {id};
      }
    }
  }

  /** `Update`. The statement always parses. An id with no row matches
      nothing (`AccountNotFound`); a new username or token that another
      account holds is error 1062, passed on; otherwise only that row
      changes, as `Patch` describes. */
  method Update(db: Store, id: AccId, f: AccountFields, now: Time) returns (s: Status)
    requires db.Valid() && now > ZeroTime
    modifies db
    ensures db.Valid()
    ensures id !in old(db.accounts) ==> s == Fail(AccountNotFound) && db.Snapshot() == old(db.Snapshot())
    ensures id in old(db.accounts) ==>
      var row := Patch(old(db.accounts)[id], f, now);
      && (Taken(old(db.accounts) - {id}, row.username, row.token) ==>
            s == Fail(Sql(DuplicateKey)) && db.Snapshot() == old(db.Snapshot()))
      && (!Taken(old(db.accounts) - {id}, row.username, row.token) ==>
            s == Pass && db.Snapshot() == old(db.Snapshot()).(accounts := old(db.accounts)[id := row]))
  {
    var query, args := BuildUpdate(id, f, now);
    if query == AccountHead + Where(AccountKey) {
      return Fail(Sql(Syntax));
    }
    if id !in db.accounts {
      return Fail(AccountNotFound);
    }
    var row := Patch(db.accounts[id], f, now);
    if Taken(db.accounts - {id}, row.username, row.token) {
      return Fail(Sql(DuplicateKey));
    }
    ReplaceRowUnique(db.accounts, id, row);
    db.accounts := db.accounts[id := row];
    s := Pass;
  }

  // ---------------------------------------------------------------------
  // Delete

  /** The decks the unlink statement reaches: the public decks of the
      account. */
  function PublicDecks(decks: map<DeckId, Deck>, a: AccId): (r: set<DeckId>)
    ensures forall d :: d in r <==> d in decks && decks[d].owner == a && decks[d].visible
  {
    set d | d in decks && decks[d].owner == a && decks[d].visible
  }

  /** `UPDATE DECK d LEFT JOIN ACCOUNT a ... SET d.acc_id = 1 WHERE
      d.visible = 1 AND a.token = ?` for the account `a` holding the token:
      its public decks pass to the deleted user. */
  function Unlink(t: Tables, a: AccId): (r: Tables)
    ensures r.decks.Keys == t.decks.Keys
    ensures forall d :: d in t.decks ==>
      r.decks[d] == if d in PublicDecks(t.decks, a) then t.decks[d].(owner := DeletedUser) else t.decks[d]
  {
    t.(decks := map d | d in t.decks ::
         if d in PublicDecks(t.decks, a) then t.decks[d].(owner := DeletedUser) else t.decks[d])
  }

  lemma UnlinkConsistent(t: Tables, a: AccId)
    requires Consistent(t) && (PublicDecks(t.decks, a) == {} || DeletedUser in t.accounts)
    ensures Consistent(Unlink(t, a))
  {
    var r := Unlink(t, a);
    forall d | d in r.decks ensures r.decks[d].owner in r.accounts {
      if d in PublicDecks(t.decks, a) {
        assert DeletedUser in t.accounts;
      }
    }
    forall c | c in r.cards ensures r.cards[c].deckId in r.decks {
      assert t.cards[c].deckId in t.decks;
    }
  }

  /** `Delete`. An unknown token reassigns nothing and deletes nothing
      (`AccountNotFound`). Otherwise the public decks pass to account 1
      (a foreign-key failure, with nothing written, when there are such
      decks and account 1 does not exist), then the account is deleted
      with everything its foreign keys cascade to. */
  method Delete(db: Store, token: string) returns (s: Status)
    requires db.Valid()
    modifies db
    ensures db.Valid()
    ensures TokenAccount(old(db.accounts), token).None? ==>
      s == Fail(AccountNotFound) && db.Snapshot() == old(db.Snapshot())
    ensures TokenAccount(old(db.accounts), token).Some? ==>
      var a := TokenAccount(old(db.accounts), token).value;
      && (PublicDecks(old(db.decks), a) != {} && DeletedUser !in old(db.accounts) ==>
            s == Fail(Sql(ForeignKey)) && db.Snapshot() == old(db.Snapshot()))
      && (PublicDecks(old(db.decks), a) == {} || DeletedUser in old(db.accounts) ==>
            s == Pass && db.Snapshot() == DropAccount(Unlink(old(db.Snapshot()), a), a))
  {
    var a := TokenAccount(db.accounts, token);
    if a.None? {
      return Fail(AccountNotFound);
    }
    if PublicDecks(db.decks, a.value) != {} && DeletedUser !in db.accounts {
      return Fail(Sql(ForeignKey));
    }
    UnlinkConsistent(db.Snapshot(), a.value);
    db.decks := Unlink(db.Snapshot(), a.value).decks;
    DropAccountConsistent(db.Snapshot(), a.value);
    db.Replace(DropAccount(db.Snapshot(), a.value));
    s := Pass;
  }

  /** What a completed deletion of account `a` (not account 1 itself)
      leaves: its token resolves to nobody; its public decks survive under
      account 1 with their cards; its private decks are gone; every other
      account's deck is untouched. */
  lemma DeleteKeepsPublicDecks(t: Tables, a: AccId)
    requires Consistent(t) && a in t.accounts && a != DeletedUser
    ensures var r := DropAccount(Unlink(t, a), a);
      && UniqueKeys(r.accounts)
      && TokenAccount(r.accounts, t.accounts[a].token).None?
      && (forall d :: d in PublicDecks(t.decks, a) ==> d in r.decks && r.decks[d] == t.decks[d].(owner := DeletedUser))
      && (forall c :: c in t.cards && t.cards[c].deckId in PublicDecks(t.decks, a) ==> c in r.cards)
      && (forall d :: d in t.decks && t.decks[d].owner == a && !t.decks[d].visible ==> d !in r.decks)
      && (forall d :: d in t.decks && t.decks[d].owner != a ==> d in r.decks && r.decks[d] == t.decks[d])
  {
    var u := Unlink(t, a);
    var r := DropAccount(u, a);
    assert r.decks == (DropDecks(u, OwnedBy(u.decks, a))).decks;
    forall d | d in t.decks && t.decks[d].owner == a && !t.decks[d].visible
      ensures d !in r.decks
    {
      assert u.decks[d].owner == a;
    }
    forall d | d in t.decks && (d in PublicDecks(t.decks, a) || t.decks[d].owner != a)
      ensures d in r.decks && r.decks[d] == u.decks[d]
    {
      assert u.decks[d].owner != a;
    }
    forall c | c in t.cards && t.cards[c].deckId in PublicDecks(t.decks, a)
      ensures c in r.cards
    {
      assert u.decks[t.cards[c].deckId].owner != a;
    }
  }
}
