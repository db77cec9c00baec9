/** The five relations of the MySQL database (ACCOUNT, DECK, ACC_DECK, CARD
    with WRONG_ANSWER, PROGRESS), the integrity the schema keeps for them,
    and the cascades its foreign keys perform on delete. */
module Schema {
  import opened Outcome

  type AccId = int
  type DeckId = int
  type CardId = int
  type WrongId = int

  /** Instants as integers. Go's zero `time.Time` is `ZeroTime`; every clock
      reading is later than it. */
  type Time = int
  const ZeroTime: Time := 0

  /** The stored ease factor (a float column). The model only stores and
      copies it, so its representation does not matter. */
  type Ease = int

  /** Account 1, the "deleted user" that inherits the public decks of a
      deleted account. */
  const DeletedUser: AccId := 1

  datatype Account = Account(
    username: string, passwd: string, email: string, name: string,
    token: string, tokenExpire: Time, lastSeen: Time)

  datatype Deck = Deck(
    owner: AccId, title: string, description: string, picId: string,
    visible: bool, updatedAt: Time, createdAt: Time)

  datatype Card = Card(
    deckId: DeckId, title: string, front: string, back: string,
    question: string, answer: string)

  /** A WRONG_ANSWER row: one distractor of a card. */
  datatype WrongAnswer = WrongAnswer(cardId: CardId, answer: string)

  datatype Progress = Progress(
    ease: Ease, interval: int, priority: int, daysHidden: int,
    watchCount: int, priorityExam: int, daysHiddenExam: int,
    answerCount: int, correctCount: int,
    isRelearning: bool, isBuried: bool)

  /** Column defaults of a PROGRESS row created without values. */
  const DefaultProgress := Progress(0, 0, 0, 0, 0, 0, 0, 0, 0, false, false)

  /** A value bound to a `?` placeholder of a statement. */
  datatype Value = Text(s: string) | Number(n: int) | Flag(b: bool) | Moment(t: Time) | Real(e: Ease)

  /** The whole database state, including the AUTO_INCREMENT counters. */
  datatype Tables = Tables(
    accounts: map<AccId, Account>,
    decks: map<DeckId, Deck>,
    subs: set<(AccId, DeckId)>,
    cards: map<CardId, Card>,
    wrongs: map<WrongId, WrongAnswer>,
    progress: map<(AccId, CardId), Progress>,
    nextAccount: AccId, nextDeck: DeckId, nextCard: CardId, nextWrong: WrongId)

  /** The unique keys of ACCOUNT: username and token. */
  predicate UniqueKeys(accounts: map<AccId, Account>) {
    forall a, b :: a in accounts && b in accounts && a != b ==>
      accounts[a].token != accounts[b].token && accounts[a].username != accounts[b].username
  }

  /** Every AUTO_INCREMENT key is positive and below the next one to hand out. */
  predicate KeysBelow<V>(m: map<int, V>, next: int) {
    0 < next && forall k :: k in m ==> 0 < k < next
  }

  predicate OwnersExist(t: Tables) {
    forall d :: d in t.decks ==> t.decks[d].owner in t.accounts
  }

  predicate SubsReferToRows(t: Tables) {
    forall s :: s in t.subs ==> s.0 in t.accounts && s.1 in t.decks
  }

  predicate CardsInDecks(t: Tables) {
    forall c :: c in t.cards ==> t.cards[c].deckId in t.decks
  }

  predicate WrongsOfCards(t: Tables) {
    forall w :: w in t.wrongs ==> t.wrongs[w].cardId in t.cards
  }

  predicate ProgressReferToRows(t: Tables) {
    forall k :: k in t.progress ==> k.0 in t.accounts && k.1 in t.cards
  }

  /** What the schema guarantees of every state: unique keys, foreign keys
      that point at existing rows, and counters ahead of every key. */
  predicate Consistent(t: Tables) {
    && UniqueKeys(t.accounts)
    && KeysBelow(t.accounts, t.nextAccount) && KeysBelow(t.decks, t.nextDeck)
    && KeysBelow(t.cards, t.nextCard) && KeysBelow(t.wrongs, t.nextWrong)
    && OwnersExist(t) && SubsReferToRows(t) && CardsInDecks(t)
    && WrongsOfCards(t) && ProgressReferToRows(t)
  }

  /** `(SELECT acc_id FROM ACCOUNT WHERE token = ?)`: the account holding the
      token, or NULL when there is none. */
  function TokenAccount(accounts: map<AccId, Account>, token: string): (r: Option<AccId>)
    requires UniqueKeys(accounts)
    ensures r.Some? ==> r.value in accounts && accounts[r.value].token == token
    ensures r.None? ==> forall a :: a in accounts ==> accounts[a].token != token
  {
    if exists a :: a in accounts && accounts[a].token == token then
      var a :| a in accounts && accounts[a].token == token; Some(a)
    else None
  }

  /** Deletes cards and, by ON DELETE CASCADE, their wrong answers and the
      progress rows on them. */
  function DropCards(t: Tables, gone: set<CardId>): (r: Tables)
    ensures r.cards.Keys == t.cards.Keys - gone
    ensures forall w :: w in r.wrongs <==> w in t.wrongs && t.wrongs[w].cardId !in gone
    ensures forall k :: k in r.progress <==> k in t.progress && k.1 !in gone
  {
    t.(cards := t.cards - gone,
       wrongs := map w | w in t.wrongs && t.wrongs[w].cardId !in gone :: t.wrongs[w],
       progress := map k | k in t.progress && k.1 !in gone :: t.progress[k])
  }

  /** The cards of the given decks. */
  function CardsOf(cards: map<CardId, Card>, ds: set<DeckId>): (r: set<CardId>)
    ensures forall c :: c in r <==> c in cards && cards[c].deckId in ds
  {
    set c | c in cards && cards[c].deckId in ds
  }

  /** Deletes decks and, by ON DELETE CASCADE, the subscriptions to them and
      their cards (with everything that references those cards). */
  function DropDecks(t: Tables, gone: set<DeckId>): (r: Tables)
    ensures r.decks.Keys == t.decks.Keys - gone
    ensures forall s :: s in r.subs <==> s in t.subs && s.1 !in gone
    ensures forall c :: c in r.cards <==> c in t.cards && t.cards[c].deckId !in gone
  {
    DropCards(t.(decks := t.decks - gone, subs := (set s | s in t.subs && s.1 !in gone)),
              CardsOf(t.cards, gone))
  }

  /** The decks an account owns. */
  function OwnedBy(decks: map<DeckId, Deck>, a: AccId): (r: set<DeckId>)
    ensures forall d :: d in r <==> d in decks && decks[d].owner == a
  {
    set d | d in decks && decks[d].owner == a
  }

  /** Deletes an account and, by ON DELETE CASCADE, the decks it still owns,
      its subscriptions and its progress rows. */
  function DropAccount(t: Tables, a: AccId): (r: Tables)
    ensures r.accounts.Keys == t.accounts.Keys - {a}
    ensures forall d :: d in r.decks <==> d in t.decks && t.decks[d].owner != a
  {
    var u := DropDecks(t, OwnedBy(t.decks, a));
    u.(accounts := t.accounts - {a},
       subs := (set s | s in u.subs && s.0 != a),
       progress := map k | k in u.progress && k.0 != a :: u.progress[k])
  }

  lemma DropCardsConsistent(t: Tables, gone: set<CardId>)
    requires Consistent(t)
    ensures Consistent(DropCards(t, gone))
  {
    var r := DropCards(t, gone);
    forall w | w in r.wrongs ensures r.wrongs[w].cardId in r.cards {
      assert r.wrongs[w] == t.wrongs[w];
    }
  }

  lemma DropDecksConsistent(t: Tables, gone: set<DeckId>)
    requires Consistent(t)
    ensures Consistent(DropDecks(t, gone))
  {
    var u := t.(decks := t.decks - gone, subs := (set s | s in t.subs && s.1 !in gone));
    var r := DropDecks(t, gone);
    assert r == DropCards(u, CardsOf(t.cards, gone));
    var goneCards := CardsOf(t.cards, gone);
    forall w | w in r.wrongs ensures r.wrongs[w].cardId in r.cards {
      assert r.wrongs[w] == t.wrongs[w];
    }
    forall c | c in r.cards ensures r.cards[c].deckId in r.decks {
      assert r.cards[c] == t.cards[c];
    }
  }

  lemma DropAccountConsistent(t: Tables, a: AccId)
    requires Consistent(t)
    ensures Consistent(DropAccount(t, a))
  {
    var u := DropDecks(t, OwnedBy(t.decks, a));
    DropDecksConsistent(t, OwnedBy(t.decks, a));
    var r := DropAccount(t, a);
    forall d | d in r.decks ensures r.decks[d].owner in r.accounts {
      assert r.decks[d] == t.decks[d];
    }
    forall w | w in r.wrongs ensures r.wrongs[w].cardId in r.cards {
      assert r.wrongs[w] == u.wrongs[w];
    }
  }

  /** The database: one field per relation, updated in place by the
      repositories' statements. */
  class Store {
    var accounts: map<AccId, Account>
    var decks: map<DeckId, Deck>
    var subs: set<(AccId, DeckId)>
    var cards: map<CardId, Card>
    var wrongs: map<WrongId, WrongAnswer>
    var progress: map<(AccId, CardId), Progress>
    var nextAccount: AccId
    var nextDeck: DeckId
    var nextCard: CardId
    var nextWrong: WrongId

    function Snapshot(): Tables
      reads this
    {
      Tables(accounts, decks, subs, cards, wrongs, progress,
             nextAccount, nextDeck, nextCard, nextWrong)
    }

    ghost predicate Valid()
      reads this
    {
      Consistent(Snapshot())
    }

    /** An empty database whose AUTO_INCREMENT counters start at 1. */
    constructor ()
      ensures Valid()
      ensures Snapshot() == Tables(map[], map[], {}, map[], map[], map[], 1, 1, 1, 1)
    {
      accounts, decks, subs, cards, wrongs, progress := map[], map[], {}, map[], map[], map[];
      nextAccount, nextDeck, nextCard, nextWrong := 1, 1, 1, 1;
    }

    /** Overwrites every relation at once: the effect of one statement whose
        result (with its cascades) was computed as a whole. */
    method Replace(t: Tables)
      modifies this
      ensures Snapshot() == t
    {
      accounts, decks, subs, cards, wrongs, progress := t.accounts, t.decks, t.subs, t.cards, t.wrongs, t.progress;
      nextAccount, nextDeck, nextCard, nextWrong := t.nextAccount, t.nextDeck, t.nextCard, t.nextWrong;
    }
  }
}
