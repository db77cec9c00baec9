/** The card repository: reads of CARD and WRONG_ANSWER, the due-card
    query that joins CARD, PROGRESS and ACCOUNT, the transactional insert of
    a card with its wrong answers, and the UPDATE statements built from the
    non-empty fields. */
module CardRepository {
  import opened Outcome
  import opened Schema
  import opened SqlText

  /** A card to insert, with the texts of its wrong answers. */
  datatype NewCard = NewCard(
    deckId: DeckId, title: string, front: string, back: string,
    question: string, answer: string, wrong: seq<string>)

  /** The card value `Update` receives; an empty text is a field left out. */
  datatype Changes = Changes(
    cardId: CardId, deckId: DeckId, title: string, front: string, back: string,
    question: string, answer: string)

  const CardHead := "UPDATE CARD SET"
  const WrongHead := "UPDATE WRONG_ANSWER SET"
  const CardKey := ["card_id", "deck_id"]
  const WrongKey := ["wrong_id"]

  // ---------------------------------------------------------------------
  // Reads

  /** A map of rows is empty exactly when it has no key. */
  lemma EmptyIff<V>(m: map<int, V>)
    ensures m == map[] <==> forall k :: k !in m
  {
    if forall k :: k !in m {
      assert m.Keys == {};
    }
  }

  /** `SELECT * FROM CARD WHERE card_id = ? AND deck_id = ?`: the card only
      under its own deck; any other pair is `CardNotFound`. */
  function ById(t: Tables, cardId: CardId, deckId: DeckId): (r: Result<Card>)
    ensures r.Ok? <==> cardId in t.cards && t.cards[cardId].deckId == deckId
    ensures r.Ok? ==> r.value == t.cards[cardId]
    ensures r.Err? ==> r.error == CardNotFound
  {
    if cardId in t.cards && t.cards[cardId].deckId == deckId then Ok(t.cards[cardId])
    else Err(CardNotFound)
  }

  /** `SELECT * FROM CARD WHERE deck_id = ?`; no row is `CardNotFound`. */
  function ByDeckId(t: Tables, deckId: DeckId): (r: Result<map<CardId, Card>>)
    ensures r.Ok? ==> forall c :: c in r.value <==> c in t.cards && t.cards[c].deckId == deckId
    ensures r.Ok? ==> forall c :: c in r.value ==> r.value[c] == t.cards[c]
    ensures r.Err? <==> forall c :: c in t.cards ==> t.cards[c].deckId != deckId
    ensures r.Err? ==> r.error == CardNotFound
  {
    var rows := map c | c in t.cards && t.cards[c].deckId == deckId :: t.cards[c];
    EmptyIff(rows);
    if rows == map[] then
      assert forall c :: c in t.cards && t.cards[c].deckId == deckId ==> c in rows;
      Err(CardNotFound)
    else Ok(rows)
  }

  /** `SELECT wrong_id, answer FROM WRONG_ANSWER WHERE card_id = ?`; no row
      is `WrongNotFound`. */
  function WrongByCardId(t: Tables, cardId: CardId): (r: Result<map<WrongId, string>>)
    ensures r.Ok? ==> forall w :: w in r.value <==> w in t.wrongs && t.wrongs[w].cardId == cardId
    ensures r.Ok? ==> forall w :: w in r.value ==> r.value[w] == t.wrongs[w].answer
    ensures r.Err? <==> forall w :: w in t.wrongs ==> t.wrongs[w].cardId != cardId
    ensures r.Err? ==> r.error == WrongNotFound
  {
    var rows := map w | w in t.wrongs && t.wrongs[w].cardId == cardId :: t.wrongs[w].answer;
    EmptyIff(rows);
    if rows == map[] then
      assert forall w :: w in t.wrongs && t.wrongs[w].cardId == cardId ==> w in rows;
      Err(WrongNotFound)
    else Ok(rows)
  }

  // ---------------------------------------------------------------------
  // The due-card query

  /** SQL's three truth values. */
  datatype Truth = True | False | Unknown

  function And3(a: Truth, b: Truth): Truth {
    if a == False || b == False then False
    else if a == True && b == True then True
    else Unknown
  }

  function Or3(a: Truth, b: Truth): Truth {
    if a == True || b == True then True
    else if a == False && b == False then False
    else Unknown
  }

  function Known(b: bool): Truth {
    if b then True else False
  }

  /** A row of `CARD c LEFT JOIN PROGRESS p ... LEFT JOIN ACCOUNT a ...`:
      `None` is a NULL-extended side. */
  datatype JoinedRow = JoinedRow(id: CardId, card: Card, progress: Option<Progress>, account: Option<Account>)

  predicate Unreviewed(progress: map<(AccId, CardId), Progress>, c: CardId) {
    forall k :: k in progress ==> k.1 != c
  }

  function AccountRow(accounts: map<AccId, Account>, a: AccId): Option<Account> {
    if a in accounts then Some(accounts[a]) else None
  }

  /** The rows of the join as written: the progress join matches a card's
      rows of every account, and only a card nobody has reviewed gets a
      NULL-extended row. */
  function JoinedRows(t: Tables): set<JoinedRow> {
    (set c, k | c in t.cards && k in t.progress && k.1 == c ::
       JoinedRow(c, t.cards[c], Some(t.progress[k]), AccountRow(t.accounts, k.0)))
    + (set c | c in t.cards && Unreviewed(t.progress, c) :: JoinedRow(c, t.cards[c], None, None))
  }

  /** `(p.days_hidden <= 0 AND p.is_buried = false) OR p.card_id IS NULL`:
      the comparisons are unknown on a NULL-extended row, `IS NULL` never is. */
  function DueOrUnreviewed(p: Option<Progress>): Truth {
    var flags := if p.None? then Unknown else And3(Known(p.value.daysHidden <= 0), Known(!p.value.isBuried));
    Or3(flags, Known(p.None?))
  }

  /** The whole WHERE clause of the query as written. */
  function Selects(r: JoinedRow, deckId: DeckId, token: string): Truth {
    var tokenMatches := if r.account.None? then Unknown else Known(r.account.value.token == token);
    And3(And3(DueOrUnreviewed(r.progress), Known(r.card.deckId == deckId)), tokenMatches)
  }

  /** `ByProgress`: the cards of the joined rows the WHERE clause makes
      true; none is `CardNotFound`. */
  function ByProgress(t: Tables, token: string, deckId: DeckId): (r: Result<map<CardId, Card>>)
    ensures r.Ok? ==> forall c :: c in r.value ==> c in t.cards && r.value[c] == t.cards[c]
    ensures r.Err? ==> r.error == CardNotFound
  {
    var rows := map c | c in t.cards && (exists r :: r in JoinedRows(t) && r.id == c && Selects(r, deckId, token) == True)
                  :: t.cards[c];
    if rows == map[] then Err(CardNotFound) else Ok(rows)
  }

  /** A card is due for the token's account: it is in the deck and that
      account has a progress row on it that is neither hidden nor buried. */
  predicate Due(t: Tables, token: string, deckId: DeckId, c: CardId) {
    && c in t.cards && t.cards[c].deckId == deckId
    && exists a :: a in t.accounts && t.accounts[a].token == token && (a, c) in t.progress
                   && t.progress[(a, c)].daysHidden <= 0 && !t.progress[(a, c)].isBuried
  }

  /** A row the WHERE clause makes true has a progress row and an account
      row: the token's account reviewed the card and the row is due. */
  lemma SelectedIsDue(t: Tables, token: string, deckId: DeckId, r: JoinedRow)
    requires Consistent(t) && r in JoinedRows(t) && Selects(r, deckId, token) == True
    ensures Due(t, token, deckId, r.id)
  {
    assert r.account.Some?;
    var c, k :| c in t.cards && k in t.progress && k.1 == c &&
                r == JoinedRow(c, t.cards[c], Some(t.progress[k]), AccountRow(t.accounts, k.0));
    assert k == (k.0, c);
  }

  /** A due card has a joined row the WHERE clause makes true. */
  lemma DueIsSelected(t: Tables, token: string, deckId: DeckId, c: CardId)
    requires Consistent(t) && Due(t, token, deckId, c)
    ensures exists r :: r in JoinedRows(t) && r.id == c && Selects(r, deckId, token) == True
  {
    var a :| a in t.accounts && t.accounts[a].token == token && (a, c) in t.progress
             && t.progress[(a, c)].daysHidden <= 0 && !t.progress[(a, c)].isBuried;
    var r := JoinedRow(c, t.cards[c], Some(t.progress[(a, c)]), AccountRow(t.accounts, a));
    assert r in JoinedRows(t);
    assert Selects(r, deckId, token) == True;
  }

  /** The query as written returns exactly the due cards. A NULL-extended
      row has a NULL account, so `a.token = ?` is unknown on it and the
      `p.card_id IS NULL` branch never selects anything. */
  lemma ByProgressIsDue(t: Tables, token: string, deckId: DeckId)
    requires Consistent(t)
    ensures ByProgress(t, token, deckId).Ok? ==>
      forall c :: c in ByProgress(t, token, deckId).value <==> Due(t, token, deckId, c)
    ensures ByProgress(t, token, deckId).Err? <==> forall c :: !Due(t, token, deckId, c)
  {
    forall c ensures (exists r :: r in JoinedRows(t) && r.id == c && Selects(r, deckId, token) == True)
                     <==> Due(t, token, deckId, c)
    {
      if exists r :: r in JoinedRows(t) && r.id == c && Selects(r, deckId, token) == True {
        var r :| r in JoinedRows(t) && r.id == c && Selects(r, deckId, token) == True;
        SelectedIsDue(t, token, deckId, r);
      }
      if Due(t, token, deckId, c) {
        DueIsSelected(t, token, deckId, c);
      }
    }
    var rows := map c | c in t.cards && (exists r :: r in JoinedRows(t) && r.id == c && Selects(r, deckId, token) == True)
                  :: t.cards[c];
    EmptyIff(rows);
    if rows == map[] {
      assert forall c :: Due(t, token, deckId, c) ==> c in rows;
    }
  }

  /** A card the token's account has never reviewed is never returned, even
      though the WHERE clause has a branch for it. */
  lemma UnreviewedNeverReturned(t: Tables, token: string, deckId: DeckId, a: AccId, c: CardId)
    requires Consistent(t)
    requires a in t.accounts && t.accounts[a].token == token && (a, c) !in t.progress
    ensures ByProgress(t, token, deckId).Ok? ==> c !in ByProgress(t, token, deckId).value
  {
    ByProgressIsDue(t, token, deckId);
  }

  /** The progress row of the token's account on a card, if any: the join
      with the account condition moved into its ON clause. */
  function OwnProgress(t: Tables, token: string, c: CardId): Option<Progress>
    requires UniqueKeys(t.accounts)
  {
    var a := TokenAccount(t.accounts, token);
    if a.Some? && (a.value, c) in t.progress then Some(t.progress[(a.value, c)]) else None
  }

  /** The evidently intended query: `LEFT JOIN PROGRESS p ON c.card_id =
      p.card_id AND p.acc_id = (SELECT acc_id FROM ACCOUNT WHERE token = ?)`
      with the same due-or-unreviewed test and no `a.token` filter. */
  function DueCards(t: Tables, token: string, deckId: DeckId): (r: Result<map<CardId, Card>>)
    requires UniqueKeys(t.accounts)
    ensures r.Ok? ==> forall c :: c in r.value ==> c in t.cards && r.value[c] == t.cards[c]
    ensures r.Err? ==> r.error == CardNotFound
  {
    var rows := map c | c in t.cards && And3(DueOrUnreviewed(OwnProgress(t, token, c)),
                                             Known(t.cards[c].deckId == deckId)) == True
                  :: t.cards[c];
    if rows == map[] then Err(CardNotFound) else Ok(rows)
  }

  /** The corrected query returns the cards of the deck that the account
      has not reviewed, or whose row is neither hidden nor buried. */
  lemma DueCardsIncludeUnreviewed(t: Tables, token: string, deckId: DeckId, c: CardId)
    requires Consistent(t)
    requires c in t.cards && t.cards[c].deckId == deckId
    ensures var p := OwnProgress(t, token, c);
      (DueCards(t, token, deckId).Ok? && c in DueCards(t, token, deckId).value)
      <==> p.None? || (p.value.daysHidden <= 0 && !p.value.isBuried)
  {
    var rows := map c | c in t.cards && And3(DueOrUnreviewed(OwnProgress(t, token, c)),
                                             Known(t.cards[c].deckId == deckId)) == True
                  :: t.cards[c];
    EmptyIff(rows);
    assert c in rows <==> And3(DueOrUnreviewed(OwnProgress(t, token, c)), Known(true)) == True;
  }

  // ---------------------------------------------------------------------
  // Create

  /** The CARD row of a new card. */
  function CardRow(card: NewCard): Card {
    Card(card.deckId, card.title, card.front, card.back, card.question, card.answer)
  }

  /** The WRONG_ANSWER rows inserted for `answers`, numbered from `start`. */
  function WrongRows(start: WrongId, cardId: CardId, answers: seq<string>): (m: map<WrongId, WrongAnswer>)
    ensures forall w :: w in m <==> start <= w < start + |answers|
    ensures forall w :: w in m ==> m[w] == WrongAnswer(cardId, answers[w - start])
  {
    if answers == [] then map[]
    else WrongRows(start, cardId, answers[..|answers| - 1])[start + |answers| - 1 := WrongAnswer(cardId, answers[|answers| - 1])]
  }

  lemma MergeUpdate(a: map<WrongId, WrongAnswer>, b: map<WrongId, WrongAnswer>, k: WrongId, v: WrongAnswer)
    ensures (a + b)[k := v] == a + b[k := v]
  {
  }

  /** Inserting a card under an existing deck keeps the schema's guarantees. */
  lemma InsertCardConsistent(t: Tables, row: Card)
    requires Consistent(t) && row.deckId in t.decks
    ensures Consistent(t.(cards := t.cards[t.nextCard := row], nextCard := t.nextCard + 1))
  {
  }

  /** Inserting a wrong answer of an existing card keeps the schema's
      guarantees. */
  lemma InsertWrongConsistent(t: Tables, cardId: CardId, answer: string)
    requires Consistent(t) && cardId in t.cards
    ensures Consistent(t.(wrongs := t.wrongs[t.nextWrong := WrongAnswer(cardId, answer)], nextWrong := t.nextWrong + 1))
  {
  }

  /** The wrong answers once `answers` are inserted one by one from `start`. */
  function Added(w: map<WrongId, WrongAnswer>, start: WrongId, cardId: CardId, answers: seq<string>): map<WrongId, WrongAnswer>
  {
    if answers == [] then w
    else Added(w, start, cardId, answers[..|answers| - 1])[start + |answers| - 1 := WrongAnswer(cardId, answers[|answers| - 1])]
  }

  /** Inserting the rows one by one is adding all of them at once. */
  lemma {:induction false} AddedIsMerge(w: map<WrongId, WrongAnswer>, start: WrongId, cardId: CardId, answers: seq<string>)
    ensures Added(w, start, cardId, answers) == w + WrongRows(start, cardId, answers)
  {
    if answers != [] {
      var init := answers[..|answers| - 1];
      AddedIsMerge(w, start, cardId, init);
      MergeUpdate(w, WrongRows(start, cardId, init), start + |init|, WrongAnswer(cardId, answers[|init|]));
    }
  }

  /** One `wrongStmt.Exec`: the next WRONG_ANSWER row of an existing card. */
  method InsertWrong(db: Store, cardId: CardId, answer: string)
    requires db.Valid() && cardId in db.cards
    modifies db
    ensures db.Valid()
    ensures db.Snapshot() == old(db.Snapshot()).(wrongs := old(db.wrongs)[old(db.nextWrong) := WrongAnswer(cardId, answer)],
                                                 nextWrong := old(db.nextWrong) + 1)
  {
    InsertWrongConsistent(db.Snapshot(), cardId, answer);
    db.wrongs := db.wrongs[db.nextWrong := WrongAnswer(cardId, answer)];
    db.nextWrong := db.nextWrong + 1;
  }

  /** `Create`, one transaction: the card, then its wrong answers one by
      one. A missing deck fails the card's foreign key (`DeckNotFound`).
      `fault` stands for a driver error on the insert of the wrong answer
      with that index; the transaction is then rolled back. Either every row
      is written or none is. */
  method Create(db: Store, card: NewCard, fault: Option<nat>) returns (r: Result<CardId>)
    requires db.Valid()
    modifies db
    ensures db.Valid()
    ensures card.deckId !in old(db.decks) ==> r == Err(DeckNotFound)
    ensures card.deckId in old(db.decks) && fault.Some? && fault.value < |card.wrong| ==> r == Err(Sql(Driver))
    ensures r.Err? ==> db.Snapshot() == old(db.Snapshot())
    ensures r.Ok? <==> card.deckId in old(db.decks) && (fault.None? || fault.value >= |card.wrong|)
    ensures r.Ok? ==>
      && r.value == old(db.nextCard)
      && db.Snapshot() == old(db.Snapshot()).(
           cards := old(db.cards)[r.value := CardRow(card)],
           wrongs := old(db.wrongs) + WrongRows(old(db.nextWrong), r.value, card.wrong),
           nextCard := r.value + 1,
           nextWrong := old(db.nextWrong) + |card.wrong|)
  {
    if card.deckId !in db.decks {
      return Err(DeckNotFound);
    }
    var saved := db.Snapshot();
    var id := db.nextCard;
    InsertCardConsistent(saved, CardRow(card));
    db.cards := db.cards[id := CardRow(card)];
    db.nextCard := id + 1;
    assert card.wrong[..0] == [];
    var i := 0;
    while i < |card.wrong|
      invariant 0 <= i <= |card.wrong|
      invariant fault.Some? ==> fault.value >= i
      invariant db.accounts == saved.accounts && db.decks == saved.decks && db.subs == saved.subs
      invariant db.progress == saved.progress && db.nextAccount == saved.nextAccount && db.nextDeck == saved.nextDeck
      invariant db.cards == saved.cards[id := CardRow(card)] && db.nextCard == id + 1
      invariant db.wrongs == Added(saved.wrongs, saved.nextWrong, id, card.wrong[..i])
      invariant db.nextWrong == saved.nextWrong + i
      invariant db.Valid()
    {
      if fault == Some(i) {
        db.Replace(saved);
        return Err(Sql(Driver));
      }
      assert card.wrong[..i + 1][..i] == card.wrong[..i];
      InsertWrong(db, id, card.wrong[i]);
      i := i + 1;
    }
    AddedIsMerge(saved.wrongs, saved.nextWrong, id, card.wrong);
    assert card.wrong[..i] == card.wrong;
    r := Ok(id);
  }

  // ---------------------------------------------------------------------
  // Update, UpdateWrong, Delete

  /** The two heads differ before either ends. */
  lemma HeadsDiffer()
    ensures |CardHead| < |WrongHead| && WrongHead[..|CardHead|] != CardHead
  {
    assert WrongHead[7] == 'W' && CardHead[7] == 'C';
  }

  lemma HeadsWithoutMarks()
    ensures '?' !in CardHead && '?' !in WrongHead
  {
  }

  /** `updateCardField`: an empty value is skipped; otherwise ` field = ?`
      is written, after a comma unless the text is still one of the two
      heads, and the value is appended to the arguments. */
  method UpdateCardField(q: UpdateQuery, field: string, value: string)
    requires q.Valid() && (q.head == CardHead || q.head == WrongHead) && ColumnName(field)
    modifies q
    ensures q.Valid()
    ensures q.sets == old(q.sets) + Present(field, TextField(value))
  {
    if value == "" {
      return;
    }
    q.HeadPrefix();
    HeadsDiffer();
    var needsComma := q.query != CardHead && q.query != WrongHead;
    q.Append(needsComma, field, Text(value));
  }

  /** The assignments `Update` writes, in the order of its calls. */
  function CardSets(c: Changes): seq<Assignment> {
    Present("title", TextField(c.title)) + Present("front", TextField(c.front)) +
    Present("back", TextField(c.back)) + Present("question", TextField(c.question)) +
    Present("answer", TextField(c.answer))
  }

  /** A column is assigned exactly when its text is not empty. */
  lemma CardColumns(c: Changes)
    ensures forall column :: column in Names(CardSets(c)) <==>
      || (column == "title" && c.title != "")
      || (column == "front" && c.front != "")
      || (column == "back" && c.back != "")
      || (column == "question" && c.question != "")
      || (column == "answer" && c.answer != "")
  {
    var p1, p2, p3 := Present("title", TextField(c.title)), Present("front", TextField(c.front)),
                      Present("back", TextField(c.back));
    var p4, p5 := Present("question", TextField(c.question)), Present("answer", TextField(c.answer));
    NamesPresent("title", TextField(c.title));
    NamesPresent("front", TextField(c.front));
    NamesPresent("back", TextField(c.back));
    NamesPresent("question", TextField(c.question));
    NamesPresent("answer", TextField(c.answer));
    NamesAppend(p1, p2);
    NamesAppend(p1 + p2, p3);
    NamesAppend(p1 + p2 + p3, p4);
    NamesAppend(p1 + p2 + p3 + p4, p5);
    assert Names(CardSets(c)) == Names(p1) + Names(p2) + Names(p3) + Names(p4) + Names(p5);
  }

  lemma CardKeyNames()
    ensures forall k :: k in CardKey ==> ColumnName(k)
  {
  }

  lemma FaceNames()
    ensures ColumnName("title") && ColumnName("front") && ColumnName("back")
  {
  }

  lemma QuizNames()
    ensures ColumnName("question") && ColumnName("answer")
  {
  }

  /** The five `updateCardField` calls of `Update`. */
  method SetCardFields(q: UpdateQuery, c: Changes)
    requires q.Valid() && q.head == CardHead && q.sets == []
    modifies q
    ensures q.Valid() && q.sets == CardSets(c)
  {
    SetCardFaces(q, c);
    SetCardQuiz(q, c);
  }

  /** Title, front and back. */
  method SetCardFaces(q: UpdateQuery, c: Changes)
    requires q.Valid() && q.head == CardHead && q.sets == []
    modifies q
    ensures q.Valid()
    ensures q.sets == Present("title", TextField(c.title)) + Present("front", TextField(c.front)) +
      Present("back", TextField(c.back))
  {
    FaceNames();
    UpdateCardField(q, "title", c.title);
    assert q.sets == Present("title", TextField(c.title));
    UpdateCardField(q, "front", c.front);
    UpdateCardField(q, "back", c.back);
  }

  /** Question and answer, after the faces. */
  method SetCardQuiz(q: UpdateQuery, c: Changes)
    requires q.Valid() && q.head == CardHead
    requires q.sets == Present("title", TextField(c.title)) + Present("front", TextField(c.front)) +
      Present("back", TextField(c.back))
    modifies q
    ensures q.Valid() && q.sets == CardSets(c)
  {
    QuizNames();
    UpdateCardField(q, "question", c.question);
    UpdateCardField(q, "answer", c.answer);
  }

  /** The text and arguments of `Update`'s statement: the SET list of the
      non-empty fields, then the card id and deck id of the WHERE clause. */
  method BuildUpdate(c: Changes) returns (query: string, args: seq<Value>)
    ensures ColumnNames(CardSets(c))
    ensures query == Statement(CardHead, CardSets(c), CardKey)
    ensures args == Values(CardSets(c)) + [Number(c.cardId), Number(c.deckId)]
    ensures CountChar('?', query) == |args|
  {
    var q := new UpdateQuery(CardHead);
    SetCardFields(q, c);
    HeadsWithoutMarks();
    CardKeyNames();
    q.Finish(CardKey, [Number(c.cardId), Number(c.deckId)]);
    query, args := q.query, q.args;
  }

  /** The value of a writable column of a card row. */
  function Cell(d: Card, column: string): Option<Value> {
    if column == "title" then Some(Text(d.title))
    else if column == "front" then Some(Text(d.front))
    else if column == "back" then Some(Text(d.back))
    else if column == "question" then Some(Text(d.question))
    else if column == "answer" then Some(Text(d.answer))
    else None
  }

  /** The row after the UPDATE. */
  function Patch(d: Card, c: Changes): Card {
    Card(d.deckId,
         if c.title != "" then c.title else d.title,
         if c.front != "" then c.front else d.front,
         if c.back != "" then c.back else d.back,
         if c.question != "" then c.question else d.question,
         if c.answer != "" then c.answer else d.answer)
  }

  /** The UPDATE writes exactly its SET list: every assigned column holds
      the bound value, every other column keeps its value, and the card
      stays in its deck. */
  lemma PatchWritesSetList(d: Card, c: Changes)
    ensures forall a :: a in CardSets(c) ==> Cell(Patch(d, c), a.0) == Some(a.1)
    ensures forall column :: column !in Names(CardSets(c)) ==> Cell(Patch(d, c), column) == Cell(d, column)
    ensures Patch(d, c).deckId == d.deckId
  {
    forall a | a in CardSets(c) ensures Cell(Patch(d, c), a.0) == Some(a.1) {
      AssignedCell(d, c, a);
    }
    CardColumns(c);
  }

  lemma AssignedCell(d: Card, c: Changes, a: Assignment)
    requires a in CardSets(c)
    ensures Cell(Patch(d, c), a.0) == Some(a.1)
  {
    if a in Present("title", TextField(c.title)) {
    } else if a in Present("front", TextField(c.front)) {
    } else if a in Present("back", TextField(c.back)) {
    } else if a in Present("question", TextField(c.question)) {
    } else {
      assert a in Present("answer", TextField(c.answer));
    }
  }

  /** Patching a card keeps its key and deck, so the schema's guarantees
      hold afterwards. */
  lemma PatchConsistent(t: Tables, c: Changes)
    requires Consistent(t) && c.cardId in t.cards
    ensures Consistent(t.(cards := t.cards[c.cardId := Patch(t.cards[c.cardId], c)]))
  {
  }

  /** `Update`: an empty SET list does not parse (error 1064, passed on);
      a card id that is not in that deck matches no row (`CardNotFound`);
      otherwise only that card changes, as `Patch` describes. */
  method Update(db: Store, c: Changes) returns (s: Status)
    requires db.Valid()
    modifies db
    ensures db.Valid()
    ensures CardSets(c) == [] ==> s == Fail(Sql(Syntax)) && db.Snapshot() == old(db.Snapshot())
    ensures CardSets(c) != [] && ById(old(db.Snapshot()), c.cardId, c.deckId).Err? ==>
      s == Fail(CardNotFound) && db.Snapshot() == old(db.Snapshot())
    ensures CardSets(c) != [] && ById(old(db.Snapshot()), c.cardId, c.deckId).Ok? ==>
      s == Pass && db.Snapshot() == old(db.Snapshot()).(cards := old(db.cards)[c.cardId := Patch(old(db.cards)[c.cardId], c)])
  {
    var query, args := BuildUpdate(c);
    HeadsWithoutMarks();
    BareStatement(CardHead, CardSets(c), CardKey);
    if query == CardHead + Where(CardKey) {
      return Fail(Sql(Syntax));
    }
    if c.cardId !in db.cards || db.cards[c.cardId].deckId != c.deckId {
      return Fail(CardNotFound);
    }
    PatchConsistent(db.Snapshot(), c);
    db.cards := db.cards[c.cardId := Patch(db.cards[c.cardId], c)];
    s := Pass;
  }

  /** The text and arguments of `UpdateWrong`'s statement. */
  method BuildUpdateWrong(id: WrongId, answer: string) returns (query: string, args: seq<Value>)
    ensures ColumnNames(Present("answer", TextField(answer)))
    ensures query == Statement(WrongHead, Present("answer", TextField(answer)), WrongKey)
    ensures args == Values(Present("answer", TextField(answer))) + [Number(id)]
    ensures CountChar('?', query) == |args|
  {
    HeadsWithoutMarks();
    var q := new UpdateQuery(WrongHead);
    UpdateCardField(q, "answer", answer);
    q.Finish(WrongKey, [Number(id)]);
    query, args := q.query, q.args;
  }

  /** `UpdateWrong`: an empty answer leaves the SET list empty (error 1064);
      a wrong id that matches no row is reported as `CardNotFound`;
      otherwise only that answer's text changes. */
  method UpdateWrong(db: Store, id: WrongId, answer: string) returns (s: Status)
    requires db.Valid()
    modifies db
    ensures db.Valid()
    ensures answer == "" ==> s == Fail(Sql(Syntax)) && db.Snapshot() == old(db.Snapshot())
    ensures answer != "" && id !in old(db.wrongs) ==> s == Fail(CardNotFound) && db.Snapshot() == old(db.Snapshot())
    ensures answer != "" && id in old(db.wrongs) ==>
      s == Pass && db.Snapshot() == old(db.Snapshot()).(wrongs := old(db.wrongs)[id := old(db.wrongs)[id].(answer := answer)])
  {
    var query, args := BuildUpdateWrong(id, answer);
    HeadsWithoutMarks();
    BareStatement(WrongHead, Present("answer", TextField(answer)), WrongKey);
    if query == WrongHead + Where(WrongKey) {
      return Fail(Sql(Syntax));
    }
    if id !in db.wrongs {
      return Fail(CardNotFound);
    }
    db.wrongs := db.wrongs[id := db.wrongs[id].(answer := answer)];
    s := Pass;
  }

  /** `DELETE FROM CARD WHERE card_id = ? AND deck_id = ?`, with the cascade
      to its wrong answers and progress rows; a pair that matches no row is
      `CardNotFound`. */
  method Delete(db: Store, cardId: CardId, deckId: DeckId) returns (s: Status)
    requires db.Valid()
    modifies db
    ensures db.Valid()
    ensures ById(old(db.Snapshot()), cardId, deckId).Err? ==>
      s == Fail(CardNotFound) && db.Snapshot() == old(db.Snapshot())
    ensures ById(old(db.Snapshot()), cardId, deckId).Ok? ==>
      s == Pass && db.Snapshot() == DropCards(old(db.Snapshot()), {cardId})
  {
    if cardId !in db.cards || db.cards[cardId].deckId != deckId {
      return Fail(CardNotFound);
    }
    DropCardsConsistent(db.Snapshot(), {cardId});
    db.Replace(DropCards(db.Snapshot(), {cardId}));
    s := Pass;
  }
}
