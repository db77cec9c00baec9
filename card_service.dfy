/** The card service: the three-distractor rule in front of the
    transactional insert, the card read that also fetches its wrong answers,
    and the update that rewrites the card's texts and then its wrong answers
    one by one, counting the ones it wrote. */
module CardService {
  import opened Outcome
  import opened Schema
  import R = CardRepository

  /** A wrong answer of a create request: only its text. */
  datatype WrongRequest = WrongRequest(answer: string)

  datatype CreateRequest = CreateRequest(
    deckId: DeckId, title: string, front: string, back: string,
    question: string, answer: string, wrong: seq<WrongRequest>)

  /** A wrong answer of an update request: the row to rewrite and its new
      text. */
  datatype WrongChange = WrongChange(wrongId: WrongId, answer: string)

  datatype UpdateRequest = UpdateRequest(
    deckId: DeckId, cardId: CardId, title: string, front: string, back: string,
    question: string, answer: string, wrong: seq<WrongChange>)

  /** Every card has one right answer and exactly this many wrong ones. */
  const Distractors := 3

  // ---------------------------------------------------------------------
  // Create

  /** The copy loop of `Create`: the answers' texts, in order, one per
      request entry (the wrong answers' ids stay unset). */
  method CopyAnswers(ws: seq<WrongRequest>) returns (answers: seq<string>)
    ensures |answers| == |ws|
    ensures forall i :: 0 <= i < |ws| ==> answers[i] == ws[i].answer
  {
    answers := [];
    for i := 0 to |ws|
      invariant |answers| == i
      invariant forall j :: 0 <= j < i ==> answers[j] == ws[j].answer
    {
      answers := answers + [ws[i].answer];
    }
  }

  /** The texts of the request's wrong answers, in order. */
  function Texts(ws: seq<WrongRequest>): seq<string> {
    seq(|ws|, i requires 0 <= i < |ws| => ws[i].answer)
  }

  /** The card the repository receives for `req` and the copied answers. */
  function NewCard(req: CreateRequest, answers: seq<string>): R.NewCard {
    R.NewCard(req.deckId, req.title, req.front, req.back, req.question, req.answer, answers)
  }

  /** True when the request names no title or not exactly three wrong
      answers. */
  predicate BadCreate(req: CreateRequest) {
    req.title == "" || |req.wrong| != Distractors
  }

  /** `Create`. A bad request is `BadField` and nothing is written;
      otherwise the repository inserts the card and its three wrong answers
      in request order, or nothing at all. `fault` is passed on to the
      repository's transaction. */
  method Create(db: Store, req: CreateRequest, fault: Option<nat>) returns (r: Result<CardId>)
    requires db.Valid()
    modifies db
    ensures db.Valid()
    ensures BadCreate(req) ==> r == Err(BadField)
    ensures r.Err? ==> db.Snapshot() == old(db.Snapshot())
    ensures r.Ok? <==>
      !BadCreate(req) && req.deckId in old(db.decks) && (fault.None? || fault.value >= Distractors)
    ensures r.Ok? ==>
      && r.value == old(db.nextCard)
      && db.cards == old(db.cards)[r.value := Schema.Card(req.deckId, req.title, req.front, req.back, req.question, req.answer)]
      && db.nextWrong == old(db.nextWrong) + Distractors
      && db.wrongs == old(db.wrongs) + R.WrongRows(old(db.nextWrong), r.value, Texts(req.wrong))
  {
    if BadCreate(req) {
      return Err(BadField);
    }
    var answers := CopyAnswers(req.wrong);
    r := R.Create(db, NewCard(req, answers), fault);
    assert answers == Texts(req.wrong);
  }

  /** Reading back a card `Create` inserted gives the card and exactly its
      freshly numbered wrong answers: rows of older cards never carry the new
      card id. */
  lemma CreatedCardReadsBack(t: Tables, t': Tables, card: R.NewCard)
    requires Consistent(t) && card.deckId in t.decks && card.wrong != []
    requires t' == t.(cards := t.cards[t.nextCard := R.CardRow(card)],
                      wrongs := t.wrongs + R.WrongRows(t.nextWrong, t.nextCard, card.wrong),
                      nextCard := t.nextCard + 1,
                      nextWrong := t.nextWrong + |card.wrong|)
    ensures Card(t', t.nextCard, card.deckId).Ok?
    ensures Card(t', t.nextCard, card.deckId).value.0 == R.CardRow(card)
    ensures forall w :: w in Card(t', t.nextCard, card.deckId).value.1 <==>
      t.nextWrong <= w < t.nextWrong + |card.wrong|
    ensures forall w :: w in Card(t', t.nextCard, card.deckId).value.1 ==>
      Card(t', t.nextCard, card.deckId).value.1[w] == card.wrong[w - t.nextWrong]
  {
    var id := t.nextCard;
    var added := R.WrongRows(t.nextWrong, id, card.wrong);
    forall w | w in t'.wrongs
      ensures t'.wrongs[w].cardId == id <==> w in added
    {
      if w !in added {
        assert t.wrongs[w].cardId in t.cards;
      }
    }
    assert t.nextWrong in added;
  }

  // ---------------------------------------------------------------------
  // Card

  /** `Card`: the card of that deck, then its wrong answers; a missing card
      is `CardNotFound` and a card without wrong answers `WrongNotFound`. */
  function Card(t: Tables, cardId: CardId, deckId: DeckId): (r: Result<(Schema.Card, map<WrongId, string>)>)
    ensures r.Ok? <==>
      && cardId in t.cards && t.cards[cardId].deckId == deckId
      && exists w :: w in t.wrongs && t.wrongs[w].cardId == cardId
    ensures r.Ok? ==> r.value.0 == t.cards[cardId]
    ensures r.Ok? ==> forall w :: w in r.value.1 <==> w in t.wrongs && t.wrongs[w].cardId == cardId
    ensures r.Ok? ==> forall w :: w in r.value.1 ==> r.value.1[w] == t.wrongs[w].answer
    ensures r.Err? ==>
      r.error == if cardId in t.cards && t.cards[cardId].deckId == deckId then WrongNotFound else CardNotFound
  {
    match R.ById(t, cardId, deckId)
    case Err(e) => Err(e)
    case Ok(card) =>
      match R.WrongByCardId(t, cardId)
      case Err(e) => Err(e)
      case Ok(wrong) => Ok((card, wrong))
  }

  // ---------------------------------------------------------------------
  // Update

  /** True when the request changes at least one text of the card row. */
  predicate TextChanged(req: UpdateRequest) {
    req.title != "" || req.front != "" || req.back != "" || req.question != "" || req.answer != ""
  }

  function Changes(req: UpdateRequest): R.Changes {
    R.Changes(req.cardId, req.deckId, req.title, req.front, req.back, req.question, req.answer)
  }

  /** The SET list of the card update is empty exactly when no text
      changes. */
  lemma SetListEmpty(req: UpdateRequest)
    ensures R.CardSets(Changes(req)) == [] <==> !TextChanged(req)
  {
  }

  /** An entry the loop writes: it names a row and brings a text. */
  predicate Eligible(w: WrongChange) {
    w.wrongId != 0 && w.answer != ""
  }

  /** How many entries the loop writes when none fails. All of them
      exactly when every entry is eligible. */
  function Updated(ws: seq<WrongChange>): (n: nat)
    ensures n <= |ws|
    ensures n == |ws| <==> forall i :: 0 <= i < |ws| ==> Eligible(ws[i])
  {
    if ws == [] then 0
    else
      var front := ws[..|ws| - 1];
      assert forall i :: 0 <= i < |front| ==> front[i] == ws[i];
      Updated(front) + if Eligible(ws[|ws| - 1]) then 1 else 0
  }

  /** The index of the first eligible entry whose row does not exist, or
      `|ws|` when there is none: the loop stops there. */
  function Stop(m: map<WrongId, WrongAnswer>, ws: seq<WrongChange>): (k: nat)
    ensures k <= |ws|
    ensures forall j :: 0 <= j < k ==> !Eligible(ws[j]) || ws[j].wrongId in m
    ensures k < |ws| ==> Eligible(ws[k]) && ws[k].wrongId !in m
  {
    if ws == [] then 0
    else if Eligible(ws[0]) && ws[0].wrongId !in m then 0
    else 1 + Stop(m, ws[1..])
  }

  /** The WRONG_ANSWER rows after the eligible entries of `ws` were written
      in order. Entries naming no row change nothing. */
  function Rewritten(m: map<WrongId, WrongAnswer>, ws: seq<WrongChange>): (r: map<WrongId, WrongAnswer>)
    ensures r.Keys == m.Keys
    ensures forall w :: w in m ==> r[w].cardId == m[w].cardId
  {
    if ws == [] then m
    else
      var r := Rewritten(m, ws[..|ws| - 1]);
      var x := ws[|ws| - 1];
      if Eligible(x) && x.wrongId in r then r[x.wrongId := r[x.wrongId].(answer := x.answer)] else r
  }

  /** The text of the last eligible entry naming `id`, if any. */
  function LastAnswer(ws: seq<WrongChange>, id: WrongId): Option<string> {
    if ws == [] then None
    else if Eligible(ws[|ws| - 1]) && ws[|ws| - 1].wrongId == id then Some(ws[|ws| - 1].answer)
    else LastAnswer(ws[..|ws| - 1], id)
  }

  /** Each row ends with the text of the last eligible entry that names it,
      and a row no eligible entry names keeps its text: the writes are
      last-wins and touch nothing else. */
  lemma {:induction false} RewrittenIsLastWrite(m: map<WrongId, WrongAnswer>, ws: seq<WrongChange>, id: WrongId)
    requires id in m
    ensures Rewritten(m, ws)[id].answer == match LastAnswer(ws, id) case Some(a) => a case None => m[id].answer
  {
    if ws != [] {
      RewrittenIsLastWrite(m, ws[..|ws| - 1], id);
    }
  }

  /** The rewritten rows keep the schema's guarantees: the keys and the
      cards they belong to do not change. */
  lemma RewrittenConsistent(t: Tables, ws: seq<WrongChange>)
    requires Consistent(t)
    ensures Consistent(t.(wrongs := Rewritten(t.wrongs, ws)))
  {
  }

  /** One more entry: one more write when it is eligible, applied to the
      rows written so far. */
  lemma RewriteStep(m: map<WrongId, WrongAnswer>, ws: seq<WrongChange>, i: nat)
    requires i < |ws|
    ensures Updated(ws[..i + 1]) == Updated(ws[..i]) + if Eligible(ws[i]) then 1 else 0
    ensures Rewritten(m, ws[..i + 1])
         == var r := Rewritten(m, ws[..i]);
            if Eligible(ws[i]) && ws[i].wrongId in r then r[ws[i].wrongId := r[ws[i].wrongId].(answer := ws[i].answer)] else r
  {
    assert ws[..i + 1][..i] == ws[..i];
  }

  /** The wrong-answer loop of `Update`: every eligible entry is written
      with the repository's `UpdateWrong`, counting the writes. The first
      eligible entry whose row is missing stops the loop with
      `CardNotFound`; fewer writes than entries is `AnswersNotUpdated`. In
      both cases the writes already made stay. Entries are matched by
      wrong id alone: the card they belong to is never checked. */
  method RewriteWrongs(db: Store, ws: seq<WrongChange>) returns (s: Status)
    requires db.Valid()
    modifies db
    ensures db.Valid()
    ensures var k := Stop(old(db.wrongs), ws);
      && db.Snapshot() == old(db.Snapshot()).(wrongs := Rewritten(old(db.wrongs), ws[..k]))
      && s == if k < |ws| then Fail(CardNotFound)
              else if Updated(ws) < |ws| then Fail(AnswersNotUpdated(Updated(ws)))
              else Pass
  {
    ghost var t := db.Snapshot();
    if |ws| > 0 {
      var affected := 0;
      var i := 0;
      while i < |ws|
        invariant 0 <= i <= |ws| && i <= Stop(t.wrongs, ws)
        invariant affected == Updated(ws[..i])
        invariant db.Snapshot() == t.(wrongs := Rewritten(t.wrongs, ws[..i]))
        invariant db.Valid()
      {
        RewriteStep(t.wrongs, ws, i);
        if Eligible(ws[i]) {
          s := R.UpdateWrong(db, ws[i].wrongId, ws[i].answer);
          if s.Fail? {
            return;
          }
          affected := affected + 1;
        }
        i := i + 1;
      }
      assert ws[..i] == ws;
      if affected < |ws| {
        return Fail(AnswersNotUpdated(affected));
      }
    }
    s := Pass;
  }

  /** `Update`. When a text changes, the repository updates the card row
      under (card id, deck id) and a card outside that deck is
      `CardNotFound` with nothing written; a request with no text skips the
      card row and its ids are never checked. Then the wrong answers are
      rewritten as `RewriteWrongs` describes. */
  method Update(db: Store, req: UpdateRequest) returns (s: Status)
    requires db.Valid()
    modifies db
    ensures db.Valid()
    ensures TextChanged(req) && R.ById(old(db.Snapshot()), req.cardId, req.deckId).Err? ==>
      s == Fail(CardNotFound) && db.Snapshot() == old(db.Snapshot())
    ensures !TextChanged(req) || R.ById(old(db.Snapshot()), req.cardId, req.deckId).Ok? ==>
      var cards := if TextChanged(req) then old(db.cards)[req.cardId := R.Patch(old(db.cards)[req.cardId], Changes(req))]
                   else old(db.cards);
      var k := Stop(old(db.wrongs), req.wrong);
      && db.Snapshot() == old(db.Snapshot()).(cards := cards, wrongs := Rewritten(old(db.wrongs), req.wrong[..k]))
      && s == if k < |req.wrong| then Fail(CardNotFound)
              else if Updated(req.wrong) < |req.wrong| then Fail(AnswersNotUpdated(Updated(req.wrong)))
              else Pass
  {
    if TextChanged(req) {
      SetListEmpty(req);
      s := R.Update(db, Changes(req));
      if s.Fail? {
        return;
      }
    }
    s := RewriteWrongs(db, req.wrong);
  }

  /** A failed update can leave rows written: when an eligible entry names
      a missing row after another eligible entry that names an existing
      one, the result is `CardNotFound` and the first row holds its new
      text. */
  lemma FailureKeepsEarlierWrites(m: map<WrongId, WrongAnswer>, first: WrongChange, missing: WrongChange)
    requires Eligible(first) && first.wrongId in m
    requires Eligible(missing) && missing.wrongId !in m
    ensures Stop(m, [first, missing]) == 1
    ensures Rewritten(m, [first, missing][..1])[first.wrongId].answer == first.answer
  {
    assert [first, missing][1..] == [missing];
    assert [first, missing][..1] == [first];
    assert [first][..0] == [];
  }
}
