/** The deck repository: the read statements over DECK, ACCOUNT and ACC_DECK
    as filters, and the write statements as methods on the store. A read
    that finds no row reports `DeckNotFound`, whether the deck is missing or
    hidden from the caller. */
module DeckRepository {
  import opened Outcome
  import opened Schema
  import opened SqlText

  /** What the deck service hands to `Create`. */
  datatype CreateRequest = CreateRequest(token: string, title: string, description: string, picId: string, visible: bool)

  /** The deck value handed to `Update`; absent fields are left as they are. */
  datatype Changes = Changes(title: string, description: string, picId: string, updatedAt: Time, visible: Option<bool>)

  /** The columns of DECK that `Update` can write. */
  const Head := "UPDATE DECK SET"
  const Key := ["deck_id"]

  /** The pic_id of a freshly inserted deck: the INSERT does not name the
      column, so the row gets the column default, which the model fixes as
      the empty string. */
  const PicColumnDefault := ""

  // ---------------------------------------------------------------------
  // Read statements

  /** The owner's stored token through `LEFT JOIN ACCOUNT a ON d.acc_id =
      a.acc_id`: NULL when the owner row is missing. */
  function OwnerToken(accounts: map<AccId, Account>, d: Deck): Option<string> {
    if d.owner in accounts then Some(accounts[d.owner].token) else None
  }

  /** `d.visible = 1 OR a.token = ?`. A NULL token makes the comparison
      unknown, which does not select the row. */
  predicate Readable(accounts: map<AccId, Account>, d: Deck, token: string) {
    d.visible || OwnerToken(accounts, d) == Some(token)
  }

  /** The empty-result rule of `scanDecks`: no row is `DeckNotFound`. */
  function ScanDecks(rows: map<DeckId, Deck>): (r: Result<map<DeckId, Deck>>)
    ensures r.Ok? <==> rows != map[]
    ensures r.Ok? ==> r.value == rows
    ensures r.Err? ==> r.error == DeckNotFound
  {
    if rows == map[] then Err(DeckNotFound) else Ok(rows)
  }

  /** One deck, when it exists and is public or the token is its owner's
      stored token. Any other case, a missing deck included, is
      `DeckNotFound`. */
  function ById(t: Tables, deckId: DeckId, token: string): (r: Result<Deck>)
    ensures r.Ok? <==> (deckId in t.decks &&
      (t.decks[deckId].visible ||
       (t.decks[deckId].owner in t.accounts && t.accounts[t.decks[deckId].owner].token == token)))
    ensures r.Ok? ==> r.value == t.decks[deckId]
    ensures r.Err? ==> r.error == DeckNotFound
  {
    if deckId in t.decks && Readable(t.accounts, t.decks[deckId], token) then Ok(t.decks[deckId])
    else Err(DeckNotFound)
  }

  /** `WHERE (a.acc_id = ? OR a.username = ?) AND (d.visible = 1 OR a.token = ?)`
      over the decks joined with their owners. */
  predicate OwnerMatches(t: Tables, d: DeckId, accId: AccId, username: string, token: string)
    requires d in t.decks
  {
    var o := t.decks[d].owner;
    && o in t.accounts
    && (o == accId || t.accounts[o].username == username)
    && Readable(t.accounts, t.decks[d], token)
  }

  /** The decks of the owner named by id or by username that the token may
      read; none is `DeckNotFound`. */
  function ByOwner(t: Tables, accId: AccId, username: string, token: string): (r: Result<map<DeckId, Deck>>)
    ensures r.Ok? ==> forall d :: d in r.value <==> d in t.decks && OwnerMatches(t, d, accId, username, token)
    ensures r.Ok? ==> forall d :: d in r.value ==> r.value[d] == t.decks[d]
    ensures r.Err? ==> (r.error == DeckNotFound &&
      forall d :: d in t.decks ==> !OwnerMatches(t, d, accId, username, token))
  {
    var rows := map d | d in t.decks && OwnerMatches(t, d, accId, username, token) :: t.decks[d];
    assert forall d :: d in t.decks && OwnerMatches(t, d, accId, username, token) ==> d in rows;
    ScanDecks(rows)
  }

  /** The WHERE clause of the subscription list on one joined row: the
      subscriber `p.0` has the username, and the deck is public or the
      subscriber is the owner and holds the owner's token. */
  predicate ListedFor(t: Tables, p: (AccId, DeckId), username: string, token: string)
    requires p.1 in t.decks
  {
    var d := t.decks[p.1];
    && p.0 in t.accounts
    && t.accounts[p.0].username == username
    && (d.visible || (OwnerToken(t.accounts, d) == Some(token) && d.owner == p.0))
  }

  /** The decks the account named `username` is subscribed to, as far as the
      token may see them; none is `DeckNotFound`. */
  function BySubsUsername(t: Tables, username: string, token: string): (r: Result<map<DeckId, Deck>>)
    ensures r.Ok? ==> forall d :: d in r.value ==> d in t.decks && r.value[d] == t.decks[d]
    ensures r.Ok? ==> forall d :: d in r.value ==>
      exists p :: p in t.subs && p.1 == d && p.0 in t.accounts && t.accounts[p.0].username == username
    ensures r.Ok? ==> forall d :: d in r.value && !t.decks[d].visible ==>
      var o := t.decks[d].owner;
      o in t.accounts && t.accounts[o].username == username && t.accounts[o].token == token && (o, d) in t.subs
    ensures r.Ok? ==> forall p :: p in t.subs && p.1 in t.decks && ListedFor(t, p, username, token) ==> p.1 in r.value
    ensures r.Err? ==> (r.error == DeckNotFound &&
      forall p :: p in t.subs && p.1 in t.decks ==> !ListedFor(t, p, username, token))
  {
    var rows := map d | d in t.decks &&
                        (exists p :: p in t.subs && p.1 == d && ListedFor(t, p, username, token))
                      :: t.decks[d];
    assert forall p :: p in t.subs && p.1 in t.decks && ListedFor(t, p, username, token) ==> p.1 in rows;
    ScanDecks(rows)
  }

  /** `CheckOwnership`: the deck exists and the token is its owner's stored
      token. Token expiry is not looked at. */
  function CheckOwnership(t: Tables, deckId: DeckId, token: string): (r: bool)
    ensures r <==> deckId in t.decks && t.decks[deckId].owner in t.accounts &&
                   t.accounts[t.decks[deckId].owner].token == token
  {
    deckId in t.decks && OwnerToken(t.accounts, t.decks[deckId]) == Some(token)
  }

  /** The columns the detail statements read, except the counts other than
      `is_subscribed`. */
  datatype Details = Details(
    title: string, description: string, picId: string,
    isSubscribed: bool, isVisible: bool, cardsRemaining: int,
    ownerId: AccId, owner: string, updatedAt: Time, createdAt: Time)

  const NoDetails := Details("", "", "", false, false, 0, 0, "", ZeroTime, ZeroTime)

  /** The ACC_DECK rows of a deck. */
  function Subscribers(t: Tables, deckId: DeckId): set<(AccId, DeckId)> {
    set s | s in t.subs && s.1 == deckId
  }

  /** The CARD rows of a deck. */
  function DeckCards(t: Tables, deckId: DeckId): set<CardId> {
    set c | c in t.cards && t.cards[c].deckId == deckId
  }

  /** The rows a LEFT JOIN keeps for `n` matches: one row padded with NULLs
      when nothing matches. */
  function JoinRows(n: nat): nat {
    if n == 0 then 1 else n
  }

  /** `COUNT(adSubscribed.deck_id)` of the owner statement. The
      `adSubscribed` join matches the owner's own ACC_DECK row, at most once,
      and it is repeated on every row of the ACC_DECK join. */
  function OwnerSubscribedCount(t: Tables, deckId: DeckId): nat
    requires deckId in t.decks
  {
    if (t.decks[deckId].owner, deckId) in t.subs then JoinRows(|Subscribers(t, deckId)|) else 0
  }

  /** `COUNT(adSubscribed.deck_id)` of the shop statement, whose rows are
      also multiplied by the CARD join. */
  function ShopSubscribedCount(t: Tables, deckId: DeckId): nat
    requires deckId in t.decks
  {
    if (t.decks[deckId].owner, deckId) in t.subs
    then JoinRows(|Subscribers(t, deckId)|) * JoinRows(|DeckCards(t, deckId)|)
    else 0
  }

  /** `Scan` of an integer column into a Go `bool`: 0 and 1 convert, and
      any other value is a conversion error of the driver package. */
  function ScanBool(n: int): Result<bool> {
    if n == 0 then Ok(false) else if n == 1 then Ok(true) else Err(Sql(Driver))
  }

  /** The owner view's `is_subscribed` count fits a `bool`: the owner is not
      subscribed, or is the deck's only subscriber. */
  predicate OwnerViewScans(t: Tables, deckId: DeckId)
    requires deckId in t.decks
  {
    var owner := t.decks[deckId].owner;
    (owner, deckId) in t.subs ==> Subscribers(t, deckId) == {(owner, deckId)}
  }

  /** The shop view's count fits a `bool`: the owner is not subscribed, or
      is the only subscriber of a deck with at most one card. */
  predicate ShopViewScans(t: Tables, deckId: DeckId)
    requires deckId in t.decks
  {
    var owner := t.decks[deckId].owner;
    (owner, deckId) in t.subs ==> Subscribers(t, deckId) == {(owner, deckId)} && |DeckCards(t, deckId)| <= 1
  }

  /** A set that holds `x` has one element exactly when it is `{x}`. */
  lemma Singleton<T>(s: set<T>, x: T)
    requires x in s
    ensures |s| == 1 <==> s == {x}
  {
    if |s| == 1 {
      assert |s - {x}| == 0;
      assert s - {x} == {};
    }
  }

  /** The owner's `is_subscribed` count is 0 exactly when the owner is not
      subscribed, and otherwise the number of subscribers, so it is at most
      1 exactly when the owner view scans. */
  lemma OwnerCount(t: Tables, deckId: DeckId)
    requires deckId in t.decks
    ensures OwnerSubscribedCount(t, deckId) <= 1 <==> OwnerViewScans(t, deckId)
    ensures OwnerSubscribedCount(t, deckId) == 0 <==> (t.decks[deckId].owner, deckId) !in t.subs
  {
    var owner := t.decks[deckId].owner;
    if (owner, deckId) in t.subs {
      assert (owner, deckId) in Subscribers(t, deckId);
      Singleton(Subscribers(t, deckId), (owner, deckId));
    }
  }

  /** The same for the shop statement's count. */
  lemma ShopCount(t: Tables, deckId: DeckId)
    requires deckId in t.decks
    ensures ShopSubscribedCount(t, deckId) <= 1 <==> ShopViewScans(t, deckId)
    ensures ShopSubscribedCount(t, deckId) == 0 <==> (t.decks[deckId].owner, deckId) !in t.subs
  {
    var owner := t.decks[deckId].owner;
    if (owner, deckId) in t.subs {
      var n, m := |Subscribers(t, deckId)|, |DeckCards(t, deckId)|;
      assert (owner, deckId) in Subscribers(t, deckId);
      Singleton(Subscribers(t, deckId), (owner, deckId));
      assert n >= 1 && JoinRows(m) >= 1;
      assert n * JoinRows(m) <= 1 <==> n == 1 && JoinRows(m) == 1 by {
        if n >= 2 { assert n * JoinRows(m) >= 2 * JoinRows(m); }
        else if JoinRows(m) >= 2 { assert n * JoinRows(m) >= JoinRows(m); }
      }
    }
  }

  /** The owner view: a row only when the deck exists and the token is its
      owner's. Its `is_subscribed` count is scanned into a `bool`, which
      fails once the owner and another account both subscribe. */
  function DetailsOwner(t: Tables, deckId: DeckId, token: string): (r: Result<Details>)
    ensures r == Err(DeckNotFound) <==> !CheckOwnership(t, deckId, token)
    ensures r.Ok? <==> CheckOwnership(t, deckId, token) && OwnerViewScans(t, deckId)
    ensures r.Err? ==> r.error == DeckNotFound || r.error == Sql(Driver)
    ensures r.Ok? ==> r.value.title == t.decks[deckId].title && r.value.isVisible == t.decks[deckId].visible &&
                      (r.value.isSubscribed <==> (t.decks[deckId].owner, deckId) in t.subs)
  {
    if CheckOwnership(t, deckId, token) then
      var d := t.decks[deckId];
      OwnerCount(t, deckId);
      match ScanBool(OwnerSubscribedCount(t, deckId))
      case Err(e) => Err(e)
      case Ok(subscribed) =>
        Ok(NoDetails.(title := d.title, description := d.description, picId := d.picId,
                      isSubscribed := subscribed, isVisible := d.visible,
                      updatedAt := d.updatedAt, createdAt := d.createdAt))
    else Err(DeckNotFound)
  }

  /** The subscription view as written: it runs the owner statement and
      scans its eighth-column row into the progress fields. Those are
      numbers, so no count fails; the `visible` column lands in
      `cardsRemaining` and only the owner gets a row. */
  function DetailsSubscription(t: Tables, deckId: DeckId, token: string): (r: Result<Details>)
    ensures r.Ok? <==> CheckOwnership(t, deckId, token)
    ensures r.Ok? ==> r.value.title == t.decks[deckId].title && !r.value.isVisible &&
                      r.value.cardsRemaining == (if t.decks[deckId].visible then 1 else 0)
    ensures r.Err? ==> r.error == DeckNotFound
  {
    if CheckOwnership(t, deckId, token) then
      var d := t.decks[deckId];
      Ok(NoDetails.(title := d.title, description := d.description, picId := d.picId,
                    cardsRemaining := if d.visible then 1 else 0,
                    updatedAt := d.updatedAt, createdAt := d.createdAt))
    else Err(DeckNotFound)
  }

  /** The shop view: keyed by the deck id alone, with no visibility test;
      it names the owner. Its `is_subscribed` count is also scanned into a
      `bool`, and the CARD join multiplies it. */
  function DetailsShop(t: Tables, deckId: DeckId): (r: Result<Details>)
    requires OwnersExist(t)
    ensures r == Err(DeckNotFound) <==> deckId !in t.decks
    ensures r.Ok? <==> deckId in t.decks && ShopViewScans(t, deckId)
    ensures r.Err? ==> r.error == DeckNotFound || r.error == Sql(Driver)
    ensures r.Ok? ==> r.value.title == t.decks[deckId].title && r.value.ownerId == t.decks[deckId].owner &&
                      r.value.owner == t.accounts[t.decks[deckId].owner].username &&
                      (r.value.isSubscribed <==> (t.decks[deckId].owner, deckId) in t.subs)
  {
    if deckId in t.decks then
      var d := t.decks[deckId];
      ShopCount(t, deckId);
      match ScanBool(ShopSubscribedCount(t, deckId))
      case Err(e) => Err(e)
      case Ok(subscribed) =>
        Ok(NoDetails.(title := d.title, description := d.description, picId := d.picId,
                      isSubscribed := subscribed, ownerId := d.owner, owner := t.accounts[d.owner].username,
                      updatedAt := d.updatedAt, createdAt := d.createdAt))
    else Err(DeckNotFound)
  }

  /** A private deck read with a token other than its owner's answers
      exactly as a deck id that does not exist. */
  lemma HiddenDeckLooksMissing(t: Tables, deckId: DeckId, missing: DeckId, token: string)
    requires deckId in t.decks && missing !in t.decks
    requires !t.decks[deckId].visible && !CheckOwnership(t, deckId, token)
    ensures ById(t, deckId, token) == ById(t, missing, token) == Err(DeckNotFound)
  {
  }

  /** The owner check and the read check agree on private decks: a private
      deck is readable exactly with the token that owns it. */
  lemma PrivateReadIsOwnership(t: Tables, deckId: DeckId, token: string)
    requires deckId in t.decks && !t.decks[deckId].visible
    ensures ById(t, deckId, token).Ok? <==> CheckOwnership(t, deckId, token)
  {
  }

  // ---------------------------------------------------------------------
  // Write statements

  /** `updateDeckField`: appends ` field = ?` (after a comma unless it is
      the first clause) and the value, unless the value is absent. */
  method UpdateDeckField(q: UpdateQuery, field: string, value: Field)
    requires q.Valid() && q.head == Head && ColumnName(field)
    modifies q
    ensures q.Valid()
    ensures q.sets == old(q.sets) + Present(field, value)
  {
    if Absent(value) {
      return;
    }
    q.HeadPrefix();
    var needsComma := q.query != Head;
    q.Append(needsComma, field, Bound(value));
  }

  /** The assignments `Update` writes, in the order of its calls. */
  function DeckSets(c: Changes): seq<Assignment> {
    Present("title", TextField(c.title)) + Present("description", TextField(c.description)) +
    Present("pic_id", TextField(c.picId)) + Present("updated_at", TimeField(c.updatedAt)) +
    Present("visible", FlagField(c.visible))
  }

  /** A column is assigned exactly when its field was supplied. */
  lemma DeckColumns(c: Changes)
    ensures forall column :: column in Names(DeckSets(c)) <==>
      || (column == "title" && c.title != "")
      || (column == "description" && c.description != "")
      || (column == "pic_id" && c.picId != "")
      || (column == "updated_at" && c.updatedAt != ZeroTime)
      || (column == "visible" && c.visible.Some?)
  {
    var p1, p2, p3 := Present("title", TextField(c.title)), Present("description", TextField(c.description)),
                      Present("pic_id", TextField(c.picId));
    var p4, p5 := Present("updated_at", TimeField(c.updatedAt)), Present("visible", FlagField(c.visible));
    NamesPresent("title", TextField(c.title));
    NamesPresent("description", TextField(c.description));
    NamesPresent("pic_id", TextField(c.picId));
    NamesPresent("updated_at", TimeField(c.updatedAt));
    NamesPresent("visible", FlagField(c.visible));
    NamesAppend(p1, p2);
    NamesAppend(p1 + p2, p3);
    NamesAppend(p1 + p2 + p3, p4);
    NamesAppend(p1 + p2 + p3 + p4, p5);
    assert Names(DeckSets(c)) == Names(p1) + Names(p2) + Names(p3) + Names(p4) + Names(p5);
  }

  /** The text and arguments of the statement `Update` prepares: the SET list
      of the supplied fields in call order, one argument per placeholder,
      the deck id last. */
  method BuildUpdate(id: DeckId, c: Changes) returns (query: string, args: seq<Value>)
    ensures ColumnNames(DeckSets(c))
    ensures query == Statement(Head, DeckSets(c), Key)
    ensures args == Values(DeckSets(c)) + [Number(id)]
    ensures CountChar('?', query) == |args|
  {
    var q := new UpdateQuery(Head);
    SetDeckTexts(q, c);
    SetDeckFlags(q, c);
    KeyNames();
    q.Finish(Key, [Number(id)]);
    query, args := q.query, q.args;
  }

  lemma KeyNames()
    ensures '?' !in Head && forall k :: k in Key ==> ColumnName(k)
  {
  }

  lemma TextNames()
    ensures ColumnName("title") && ColumnName("description") && ColumnName("pic_id")
  {
  }

  lemma FlagNames()
    ensures ColumnName("updated_at") && ColumnName("visible")
  {
  }

  /** The three text fields of `Update`, in call order. */
  method SetDeckTexts(q: UpdateQuery, c: Changes)
    requires q.Valid() && q.head == Head && q.sets == []
    modifies q
    ensures q.Valid()
    ensures q.sets == Present("title", TextField(c.title)) + Present("description", TextField(c.description)) +
      Present("pic_id", TextField(c.picId))
  {
    TextNames();
    UpdateDeckField(q, "title", TextField(c.title));
    assert q.sets == Present("title", TextField(c.title));
    UpdateDeckField(q, "description", TextField(c.description));
    UpdateDeckField(q, "pic_id", TextField(c.picId));
  }

  /** The time and flag fields of `Update`, after the texts. */
  method SetDeckFlags(q: UpdateQuery, c: Changes)
    requires q.Valid() && q.head == Head
    requires q.sets == Present("title", TextField(c.title)) + Present("description", TextField(c.description)) +
      Present("pic_id", TextField(c.picId))
    modifies q
    ensures q.Valid() && q.sets == DeckSets(c)
  {
    FlagNames();
    UpdateDeckField(q, "updated_at", TimeField(c.updatedAt));
    UpdateDeckField(q, "visible", FlagField(c.visible));
  }

  /** The value of a writable column of a deck row. */
  function Cell(d: Deck, column: string): Option<Value> {
    if column == "title" then Some(Text(d.title))
    else if column == "description" then Some(Text(d.description))
    else if column == "pic_id" then Some(Text(d.picId))
    else if column == "updated_at" then Some(Moment(d.updatedAt))
    else if column == "visible" then Some(Flag(d.visible))
    else None
  }

  /** The row after the UPDATE. */
  function Patch(d: Deck, c: Changes): Deck {
    Deck(d.owner,
         if c.title != "" then c.title else d.title,
         if c.description != "" then c.description else d.description,
         if c.picId != "" then c.picId else d.picId,
         if c.visible.Some? then c.visible.value else d.visible,
         if c.updatedAt != ZeroTime then c.updatedAt else d.updatedAt,
         d.createdAt)
  }

  /** The UPDATE writes exactly its SET list: every assigned column holds
      the value bound to its placeholder, and every other column, owner and
      creation time included, keeps its old value. */
  lemma PatchWritesSetList(d: Deck, c: Changes)
    ensures forall a :: a in DeckSets(c) ==> Cell(Patch(d, c), a.0) == Some(a.1)
    ensures forall column :: column !in Names(DeckSets(c)) ==> Cell(Patch(d, c), column) == Cell(d, column)
    ensures Patch(d, c).owner == d.owner && Patch(d, c).createdAt == d.createdAt
  {
    forall a | a in DeckSets(c) ensures Cell(Patch(d, c), a.0) == Some(a.1) {
      AssignedCell(d, c, a);
    }
    DeckColumns(c);
  }

  lemma AssignedCell(d: Deck, c: Changes, a: Assignment)
    requires a in DeckSets(c)
    ensures Cell(Patch(d, c), a.0) == Some(a.1)
  {
    if a in Present("title", TextField(c.title)) {
    } else if a in Present("description", TextField(c.description)) {
    } else if a in Present("pic_id", TextField(c.picId)) {
    } else if a in Present("updated_at", TimeField(c.updatedAt)) {
    } else {
      assert a in Present("visible", FlagField(c.visible));
    }
  }

  /** The row a successful INSERT adds; `updated_at` and `created_at` take
      the clock. */
  function NewDeck(owner: AccId, req: CreateRequest, now: Time): Deck {
    Deck(owner, req.title, req.description, PicColumnDefault, req.visible, now, now)
  }

  /** `INSERT INTO DECK ... VALUES ((SELECT acc_id FROM ACCOUNT WHERE token
      = ?), ...)`: an unknown token makes the owner NULL (error 1048,
      `InvalidToken`); otherwise the deck gets the next id. */
  method Create(db: Store, req: CreateRequest, now: Time) returns (r: Result<DeckId>)
    requires db.Valid()
    modifies db
    ensures db.Valid()
    ensures TokenAccount(old(db.accounts), req.token).None? ==>
      r == Err(InvalidToken) && db.Snapshot() == old(db.Snapshot())
    ensures TokenAccount(old(db.accounts), req.token).Some? ==>
      && r == Ok(old(db.nextDeck))
      && db.Snapshot() == old(db.Snapshot()).(
           decks := old(db.decks)[old(db.nextDeck) := NewDeck(TokenAccount(old(db.accounts), req.token).value, req, now)],
           nextDeck := old(db.nextDeck) + 1)
  {
    var owner := TokenAccount(db.accounts, req.token);
    if owner.None? {
      return Err(InvalidToken);
    }
    var id := db.nextDeck;
    db.decks := db.decks[id := NewDeck(owner.value, req, now)];
    db.nextDeck := id + 1;
    r := Ok(id);
  }

  /** Patching a deck keeps its key and owner, so the schema's guarantees
      hold afterwards. */
  lemma PatchConsistent(t: Tables, id: DeckId, c: Changes)
    requires Consistent(t) && id in t.decks
    ensures Consistent(t.(decks := t.decks[id := Patch(t.decks[id], c)]))
  {
  }

  /** `Update`: an empty SET list does not parse (error 1064, passed on);
      zero rows affected is `DeckNotFound`; otherwise only the deck with
      that id changes, as `Patch` describes. */
  method Update(db: Store, id: DeckId, c: Changes) returns (s: Status)
    requires db.Valid()
    modifies db
    ensures db.Valid()
    ensures DeckSets(c) == [] ==> s == Fail(Sql(Syntax)) && db.Snapshot() == old(db.Snapshot())
    ensures DeckSets(c) != [] && id !in old(db.decks) ==>
      s == Fail(DeckNotFound) && db.Snapshot() == old(db.Snapshot())
    ensures DeckSets(c) != [] && id in old(db.decks) ==>
      s == Pass && db.Snapshot() == old(db.Snapshot()).(decks := old(db.decks)[id := Patch(old(db.decks)[id], c)])
  {
    var query, args := BuildUpdate(id, c);
    KeyNames();
    BareStatement(Head, DeckSets(c), Key);
    if query == Head + Where(Key) {
      return Fail(Sql(Syntax));
    }
    if id !in db.decks {
      return Fail(DeckNotFound);
    }
    PatchConsistent(db.Snapshot(), id, c);
    db.decks := db.decks[id := Patch(db.decks[id], c)];
    s := Pass;
  }

  /** `DELETE FROM DECK WHERE deck_id = ?`, with the cascade to its
      subscriptions, cards, wrong answers and progress rows. */
  method Delete(db: Store, id: DeckId) returns (s: Status)
    requires db.Valid()
    modifies db
    ensures db.Valid()
    ensures id !in old(db.decks) ==> s == Fail(DeckNotFound) && db.Snapshot() == old(db.Snapshot())
    ensures id in old(db.decks) ==> s == Pass && db.Snapshot() == DropDecks(old(db.Snapshot()), {id})
  {
    if id !in db.decks {
      return Fail(DeckNotFound);
    }
    DropDecksConsistent(db.Snapshot(), {id});
    db.Replace(DropDecks(db.Snapshot(), {id}));
    s := Pass;
  }

  /** `INSERT INTO ACC_DECK`: an unknown token is `InvalidToken` (error 1048),
      an existing pair `AlreadySuscribed` (error 1062), a missing deck the
      foreign-key error; only the success case changes ACC_DECK. */
  method AddDeckSubscription(db: Store, token: string, deckId: DeckId) returns (s: Status)
    requires db.Valid()
    modifies db
    ensures db.Valid()
    ensures var a := TokenAccount(old(db.accounts), token);
      && (a.None? ==> s == Fail(InvalidToken))
      && (a.Some? && deckId !in old(db.decks) ==> s == Fail(Sql(ForeignKey)))
      && (a.Some? && (a.value, deckId) in old(db.subs) ==> s == Fail(AlreadySuscribed))
      && (s.Pass? <==> a.Some? && deckId in old(db.decks) && (a.value, deckId) !in old(db.subs))
      && (s.Pass? ==> db.Snapshot() == old(db.Snapshot()).(subs := old(db.subs) + {(a.value, deckId)}))
      && (s.Fail? ==> db.Snapshot() == old(db.Snapshot()))
  {
    var a := TokenAccount(db.accounts, token);
    if a.None? {
      return Fail(InvalidToken);
    }
    if deckId !in db.decks {
      return Fail(Sql(ForeignKey));
    }
    if (a.value, deckId) in db.subs {
      return Fail(AlreadySuscribed);
    }
    db.subs := db.subs + {(a.value, deckId)};
    s := Pass;
  }

  /** `DELETE FROM ACC_DECK WHERE acc_id = (SELECT ...) AND deck_id = ?`: an
      unknown token compares with NULL and removes nothing, so every miss is
      `NotSuscribed`. */
  method RemoveDeckSubscription(db: Store, token: string, deckId: DeckId) returns (s: Status)
    requires db.Valid()
    modifies db
    ensures db.Valid()
    ensures var a := TokenAccount(old(db.accounts), token);
      && (s.Pass? <==> a.Some? && (a.value, deckId) in old(db.subs))
      && (s.Fail? ==> s.error == NotSuscribed && db.Snapshot() == old(db.Snapshot()))
      && (s.Pass? ==> db.Snapshot() == old(db.Snapshot()).(subs := old(db.subs) - {(a.value, deckId)}))
  {
    var a := TokenAccount(db.accounts, token);
    if a.None? || (a.value, deckId) !in db.subs {
      return Fail(NotSuscribed);
    }
    db.subs := db.subs - {(a.value, deckId)};
    s := Pass;
  }
}
