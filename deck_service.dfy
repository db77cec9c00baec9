/** The deck service: request validation in front of the repository reads,
    create-then-subscribe, and the ownership gate in front of the writes. */
module DeckService {
  import opened Outcome
  import opened Schema
  import R = DeckRepository

  /** The picture a new deck is given before it is stored. */
  const DefaultPic := "default_deck_pic_1.png"

  /** What the service learns from an uploaded image: whether the file could
      be opened and read, and what storing it produced (the new picture id,
      or the storage error). Picture storage itself is not modelled. */
  datatype Upload = Upload(readable: bool, stored: Result<string>)

  datatype UpdateRequest = UpdateRequest(
    deckId: DeckId, title: string, description: string, img: Option<Upload>, visible: Option<bool>)

  /** `Create`: sets the default picture on the request, but the insert does
      not bind it, so the stored deck keeps the column default. It then
      subscribes the creator to the deck and ignores the outcome of that
      subscription. The subscription always
      succeeds: the token resolved a moment before, and nobody can be
      subscribed yet to a deck id that did not exist. */
  method Create(db: Store, req: R.CreateRequest, now: Time) returns (r: Result<DeckId>)
    requires db.Valid()
    modifies db
    ensures db.Valid()
    ensures TokenAccount(old(db.accounts), req.token).None? ==>
      r == Err(InvalidToken) && db.Snapshot() == old(db.Snapshot())
    ensures TokenAccount(old(db.accounts), req.token).Some? ==>
      var a := TokenAccount(old(db.accounts), req.token).value;
      && r == Ok(old(db.nextDeck))
      && db.Snapshot() == old(db.Snapshot()).(
           decks := old(db.decks)[old(db.nextDeck) := R.NewDeck(a, req.(picId := DefaultPic), now)],
           subs := old(db.subs) + {(a, old(db.nextDeck))},
           nextDeck := old(db.nextDeck) + 1)
    ensures r.Ok? ==> db.decks[r.value].picId == R.PicColumnDefault != DefaultPic
  {
    var request := req.(picId := DefaultPic);
    r := R.Create(db, request, now);
    if r.Err? {
      return;
    }
    assert (TokenAccount(db.accounts, request.token).value, r.value) !in db.subs;
    var ignored := R.AddDeckSubscription(db, request.token, r.value);
    assert ignored == Pass;
  }

  /** `Deck`: a zero id is rejected before any read; otherwise the deck is
      returned only when it is public or the token owns it. */
  function Deck(t: Tables, deckId: DeckId, token: string): (r: Result<Deck>)
    ensures r.Ok? <==> (deckId != 0 && deckId in t.decks &&
                       (t.decks[deckId].visible || R.CheckOwnership(t, deckId, token)))
    ensures r.Ok? ==> r.value == t.decks[deckId]
    ensures r.Err? ==> r.error == if deckId == 0 then BadField else DeckNotFound
  {
    if deckId == 0 then Err(BadField) else R.ById(t, deckId, token)
  }

  /** `OwnedDecks`: needs an account id or a username; every deck it returns
      is one the token may read. */
  function OwnedDecks(t: Tables, accId: AccId, username: string, token: string): (r: Result<map<DeckId, Deck>>)
    ensures accId == 0 && username == "" ==> r == Err(BadField)
    ensures r.Ok? ==> forall d :: d in r.value ==>
      d in t.decks && r.value[d] == t.decks[d] && (t.decks[d].visible || R.CheckOwnership(t, d, token))
    ensures r.Err? && (accId != 0 || username != "") ==> r.error == DeckNotFound
  {
    if accId == 0 && username == "" then Err(BadField) else R.ByOwner(t, accId, username, token)
  }

  /** `Suscriptions`: needs a username; every deck it returns is one the
      token may read. */
  function Suscriptions(t: Tables, username: string, token: string): (r: Result<map<DeckId, Deck>>)
    ensures username == "" ==> r == Err(BadField)
    ensures r.Ok? ==> forall d :: d in r.value ==>
      d in t.decks && r.value[d] == t.decks[d] && (t.decks[d].visible || R.CheckOwnership(t, d, token))
    ensures r.Err? && username != "" ==> r.error == DeckNotFound
  {
    if username == "" then Err(BadField) else R.BySubsUsername(t, username, token)
  }

  /** True when the request names nothing to change. */
  predicate Empty(req: UpdateRequest) {
    req.title == "" && req.description == "" && req.visible.None? && req.img.None?
  }

  /** The deck value `Update` writes when the picture step produced `pic`
      (the empty string when no image was sent). */
  function Changes(req: UpdateRequest, pic: string, now: Time): R.Changes {
    R.Changes(req.title, req.description, pic, now, req.visible)
  }

  /** `Update`. An empty request is `BadField`. With an image, the deck is
      read with the read rule (not the ownership rule), the image is read,
      the old picture is removed and the new one stored; only then is
      ownership checked. `removed` is the picture id the service deleted
      from storage, if any. The deck row changes only for the owner. */
  method Update(db: Store, req: UpdateRequest, token: string, now: Time) returns (s: Status, removed: Option<string>)
    requires db.Valid() && now > ZeroTime
    modifies db
    ensures db.Valid()
    ensures Empty(req) ==> s == Fail(BadField) && removed == None && db.Snapshot() == old(db.Snapshot())
    ensures s.Fail? ==> db.Snapshot() == old(db.Snapshot())
    ensures !R.CheckOwnership(old(db.Snapshot()), req.deckId, token) ==> s.Fail?
    ensures removed.Some? <==>
      req.img.Some? && req.img.value.readable && R.ById(old(db.Snapshot()), req.deckId, token).Ok?
    ensures removed.Some? ==> removed.value == old(db.decks)[req.deckId].picId
    ensures s.Pass? <==>
      && !Empty(req) && R.CheckOwnership(old(db.Snapshot()), req.deckId, token)
      && (req.img.Some? ==> req.img.value.readable && req.img.value.stored.Ok?)
    ensures s.Pass? ==>
      var pic := if req.img.Some? then req.img.value.stored.value else "";
      db.Snapshot() == old(db.Snapshot()).(decks := old(db.decks)[req.deckId :=
        R.Patch(old(db.decks)[req.deckId], Changes(req, pic, now))])
  {
    removed := None;
    if Empty(req) {
      return Fail(BadField), None;
    }
    var pic := "";
    if req.img.Some? {
      var oldDeck := R.ById(db.Snapshot(), req.deckId, token);
      if oldDeck.Err? {
        return Fail(oldDeck.error), None;
      }
      if !req.img.value.readable {
        return Fail(BadField), None;
      }
      removed := Some(oldDeck.value.picId);
      if req.img.value.stored.Err? {
        return Fail(req.img.value.stored.error), removed;
      }
      pic := req.img.value.stored.value;
    }
    if R.CheckOwnership(db.Snapshot(), req.deckId, token) {
      s := R.Update(db, req.deckId, Changes(req, pic, now));
    } else {
      s := Fail(InvalidToken);
    }
  }

  /** `Delete`: removes the deck (with its cascade) only for the owner's
      token; any other token is `InvalidToken` and nothing is deleted. */
  method Delete(db: Store, deckId: DeckId, token: string) returns (s: Status)
    requires db.Valid()
    modifies db
    ensures db.Valid()
    ensures !R.CheckOwnership(old(db.Snapshot()), deckId, token) ==>
      s == Fail(InvalidToken) && db.Snapshot() == old(db.Snapshot())
    ensures R.CheckOwnership(old(db.Snapshot()), deckId, token) ==>
      s == Pass && db.Snapshot() == DropDecks(old(db.Snapshot()), {deckId})
  {
    if R.CheckOwnership(db.Snapshot(), deckId, token) {
      s := R.Delete(db, deckId);
    } else {
      s := Fail(InvalidToken);
    }
  }

  /** `DeckDetails`: modes 0 and 1 need a token; every other mode is the
      shop view, which ignores the token. */
  function DeckDetails(t: Tables, mode: int, deckId: DeckId, token: string): (r: Result<R.Details>)
    requires OwnersExist(t)
    ensures (mode == 0 || mode == 1) && token == "" ==> r == Err(InvalidToken)
    ensures mode == 0 && token != "" ==> (r.Ok? <==> R.CheckOwnership(t, deckId, token))
    ensures mode == 1 && token != "" ==>
              (r.Ok? <==> R.CheckOwnership(t, deckId, token) && R.OwnerViewScans(t, deckId))
    ensures mode != 0 && mode != 1 ==> r == R.DetailsShop(t, deckId)
    ensures mode != 0 && mode != 1 ==> (r.Ok? <==> deckId in t.decks && R.ShopViewScans(t, deckId))
  {
    if mode == 0 then
      if token == "" then Err(InvalidToken) else R.DetailsSubscription(t, deckId, token)
    else if mode == 1 then
      if token == "" then Err(InvalidToken) else R.DetailsOwner(t, deckId, token)
    else R.DetailsShop(t, deckId)
  }

  /** Because the subscription view runs the owner statement, mode 0
      answers for exactly the owner's token, and mode 1 answers for a subset
      of those callers; a subscriber who does not own the deck never gets
      the subscription view. */
  lemma SubscriptionViewIsOwnerOnly(t: Tables, deckId: DeckId, subscriber: AccId)
    requires Consistent(t)
    requires (subscriber, deckId) in t.subs && t.decks[deckId].owner != subscriber
    ensures forall token :: DeckDetails(t, 1, deckId, token).Ok? <==>
                            DeckDetails(t, 0, deckId, token).Ok? && R.OwnerViewScans(t, deckId)
    ensures DeckDetails(t, 0, deckId, t.accounts[subscriber].token).Err?
  {
    var owner := t.decks[deckId].owner;
    assert t.accounts[owner].token != t.accounts[subscriber].token;
  }

  /** `Create` subscribes the owner to the new deck. Once another account
      subscribes too, the owner view and the shop view fail with a scan
      error while the subscription view still answers the owner. */
  lemma SharedDeckBreaksCountViews(t: Tables, deckId: DeckId, subscriber: AccId, mode: int)
    requires Consistent(t)
    requires deckId in t.decks && t.decks[deckId].owner != subscriber
    requires (subscriber, deckId) in t.subs && (t.decks[deckId].owner, deckId) in t.subs
    requires t.accounts[t.decks[deckId].owner].token != ""
    requires mode != 0 && mode != 1
    ensures DeckDetails(t, 1, deckId, t.accounts[t.decks[deckId].owner].token) == Err(Sql(Driver))
    ensures DeckDetails(t, 0, deckId, t.accounts[t.decks[deckId].owner].token).Ok?
    ensures DeckDetails(t, mode, deckId, "") == Err(Sql(Driver))
  {
    assert (subscriber, deckId) in R.Subscribers(t, deckId);
  }

  /** The shop view never hides a private deck: whatever the token, it
      answers unless the `is_subscribed` count fails to scan, and then names
      the owner. */
  lemma ShopShowsPrivateDecks(t: Tables, deckId: DeckId, mode: int, token: string)
    requires Consistent(t) && deckId in t.decks && !t.decks[deckId].visible
    requires mode != 0 && mode != 1
    ensures DeckDetails(t, mode, deckId, token) != Err(DeckNotFound)
    ensures DeckDetails(t, mode, deckId, token).Ok? <==> R.ShopViewScans(t, deckId)
    ensures DeckDetails(t, mode, deckId, token).Ok? ==>
              DeckDetails(t, mode, deckId, token).value.owner == t.accounts[t.decks[deckId].owner].username
  {
  }
}
