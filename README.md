# learn-swiping-api: access control and review state, in Dafny

This project models the core of the learn-swiping-api flash-card server. That core is the set of rules deciding:

- which account may read or change which deck and card (ownership, visibility and subscription);
- how a review-progress row is created, read, deleted and upserted field by field;
- which cards the due-card query returns;
- how accounts are registered, resolved by token, updated and deleted.

The MySQL database is the class `Schema.Store`, with one field per relation (ACCOUNT, DECK, ACC_DECK, CARD with WRONG_ANSWER, PROGRESS) plus the AUTO_INCREMENT counters. `Store.Valid()` is the schema's integrity: unique usernames and tokens, foreign keys that point at existing rows, and counters ahead of every key.

Each read statement is a pure function over a `Tables` snapshot. Each write statement is a method with `modifies db` whose contract gives the complete new state. The foreign keys cascade on delete, and `Schema.DropCards`, `DropDecks` and `DropAccount` compute those cascades.

MySQL outcomes that the code looks at by number are explicit error cases:

- 1062 is `DuplicateKey`;
- 1452 is `ForeignKey`;
- 1048 is `NullColumn`;
- 1364 is `NoDefault`;
- 1064 is `Syntax`.

A Go nil-pointer panic is `NilDereference`.

The sparse UPDATE builders are modelled as follows:

- `updateDeckField`, `updateCardField` and `updateField` are methods on the `SqlText.UpdateQuery` class. Its fields are the text so far, the argument slice and a ghost list of the assignments written.
- `upsertProgressField` is a method on `ProgressRepository.UpsertQuery`. Its field is the map of the three statement parts.
- Each builder is proved to produce `Statement(head, sets, keys)` with one `?` per argument. A lemma then relates the SET list to the row the statement leaves behind.

## Model

| member | source | states |
|---|---|---|
| Schema.TokenAccount | internal/deck/repository.go:106 | `(SELECT acc_id FROM ACCOUNT WHERE token = ?)` yields the account holding the token, or NULL when no account holds it |
| Schema.DropCards | internal/card/repository.go:269-286 | deleting cards also removes their wrong answers and the progress rows on them, and nothing else |
| Schema.DropDecks | internal/deck/repository.go:276-292 | deleting decks also removes their subscriptions and their cards, with everything that references those cards |
| Schema.DropAccount | internal/account/repository.go:158-170 | deleting an account also removes the decks it still owns, its subscriptions and its progress rows |
| Schema.DropCardsConsistent | internal/card/repository.go:269-286 | the card cascade keeps the schema's integrity |
| Schema.DropDecksConsistent | internal/deck/repository.go:276-292 | the deck cascade keeps the schema's integrity |
| Schema.DropAccountConsistent | internal/account/repository.go:158-170 | the account cascade keeps the schema's integrity |
| SqlText.UpdateQuery.Append | internal/deck/repository.go:424-429 | writes ` field = ?`, preceded by a comma exactly when a clause was already written, and appends one argument |
| SqlText.UpdateQuery.Finish | internal/deck/repository.go:242-251 | appends the WHERE clause and the key arguments; the assignments are unchanged |
| SqlText.StatementPlaceholders | internal/deck/repository.go:242-251 | the finished statement has one `?` per assignment and per key |
| SqlText.BareStatement | internal/deck/repository.go:240-260 | the statement is the bare `head WHERE ...` (which MySQL rejects) exactly when no field was supplied |
| SqlText.SetListCommas | internal/deck/repository.go:424-426 | the SET list has one comma fewer than it has clauses |
| DeckRepository.ScanDecks | internal/deck/repository.go:454-478 | no row is `DeckNotFound`; otherwise every row is returned |
| DeckRepository.ById | internal/deck/repository.go:65-68 | a deck is returned iff it exists and is visible or the token is its owner's stored token; otherwise `DeckNotFound` |
| DeckRepository.ByOwner | internal/deck/repository.go:73-78 | exactly the decks whose owner matches the id or the username and that are visible or the token's; an empty result is `DeckNotFound` |
| DeckRepository.BySubsUsername | internal/deck/repository.go:83-88 | only decks the named account subscribes to; a private deck only when that subscriber owns it and the token is the owner's |
| DeckRepository.CheckOwnership | internal/deck/repository.go:98-101 | true iff the deck exists and its owner's stored token equals the token; the expiry is not consulted |
| DeckRepository.OwnerCount | internal/deck/repository.go:116-138 | the owner statement's `is_subscribed` count is 0 exactly when the owner is not subscribed, and at most 1 exactly when the owner is unsubscribed or the deck's only subscriber |
| DeckRepository.ShopCount | internal/deck/repository.go:142-166 | the shop statement's `is_subscribed` count is 0 exactly when the owner is not subscribed, and at most 1 exactly when the owner is unsubscribed or is the only subscriber of a deck with at most one card |
| DeckRepository.DetailsOwner | internal/deck/repository.go:360-382 | fails with `DeckNotFound` iff `CheckOwnership` fails; answers iff `CheckOwnership` holds and the `is_subscribed` count scans into a `bool`, and otherwise fails with a driver scan error; an answer carries the deck's title, visibility and whether the owner is subscribed |
| DeckRepository.DetailsSubscription | internal/deck/repository.go:336-358 | runs the owner statement but scans it into number fields, so it answers for exactly the owner's token, and the visibility lands in the remaining-cards field |
| DeckRepository.DetailsShop | internal/deck/repository.go:384-408 | fails with `DeckNotFound` iff the deck is missing; answers iff the deck exists and the `is_subscribed` count scans, public or private, otherwise a driver scan error; an answer names the owner and whether the owner is subscribed |
| DeckRepository.HiddenDeckLooksMissing | internal/deck/repository.go:445-446 | a private deck read with a token other than the owner's gives the same error as a missing deck |
| DeckRepository.PrivateReadIsOwnership | internal/deck/repository.go:65-68 | on a private deck, the read rule and the ownership check agree |
| DeckRepository.UpdateDeckField | internal/deck/repository.go:410-430 | skips a zero time, a nil flag and an empty text; otherwise adds exactly one clause and one argument, in call order |
| DeckRepository.DeckColumns | internal/deck/repository.go:245-249 | a column is in the SET list exactly when its field was supplied |
| DeckRepository.BuildUpdate | internal/deck/repository.go:240-252 | the prepared statement is `UPDATE DECK SET` + the supplied clauses + `WHERE deck_id = ?`, with one `?` per argument |
| DeckRepository.PatchWritesSetList | internal/deck/repository.go:240-274 | after the UPDATE each assigned column holds its bound value, every other column keeps its value, and the owner and creation time stay |
| DeckRepository.Create | internal/deck/repository.go:200-215 | an unknown token is `InvalidToken` and nothing is written; otherwise a new deck gets the next id and the token's account as owner |
| DeckRepository.PatchConsistent | internal/deck/repository.go:240-274 | patching a deck keeps the schema's integrity |
| DeckRepository.Update | internal/deck/repository.go:240-274 | an empty SET list is a syntax error; a missing id is `DeckNotFound`; otherwise only that row changes |
| DeckRepository.Delete | internal/deck/repository.go:276-292 | a missing id is `DeckNotFound`; otherwise the deck is deleted with its cascade |
| DeckRepository.AddDeckSubscription | internal/deck/repository.go:294-306 | inserts (token's account, deck); an existing pair is `AlreadySuscribed` and an unknown token `InvalidToken`, with ACC_DECK unchanged |
| DeckRepository.RemoveDeckSubscription | internal/deck/repository.go:308-328 | removes only (token's account, deck); nothing removed, including for an unknown token, is `NotSuscribed` |
| DeckService.Create | internal/deck/service.go:39-52 | sets the default picture on the request, but the insert does not bind it, so the stored deck keeps the column default; subscribes the creator, which cannot fail, and returns the new id |
| DeckService.Deck | internal/deck/service.go:54-60 | deck id 0 is `BadField` before any read; otherwise the read rule decides |
| DeckService.OwnedDecks | internal/deck/service.go:62-68 | no account id and no username is `BadField`; every deck returned is one the token may read |
| DeckService.Suscriptions | internal/deck/service.go:70-76 | an empty username is `BadField`; every deck returned is one the token may read |
| DeckService.Update | internal/deck/service.go:78-126 | an empty request is `BadField`; the row changes only for the owner; with an image, the old picture is removed for any reader before ownership is checked |
| DeckService.Delete | internal/deck/service.go:128-134 | deletes only when `CheckOwnership` holds, otherwise `InvalidToken` and nothing is deleted |
| DeckService.DeckDetails | internal/deck/service.go:144-162 | modes 0 and 1 reject an empty token; otherwise mode 0 answers iff the token owns the deck and mode 1 iff it does and the owner view scans; every other mode is the shop view, ignores the token, and answers iff the deck exists and the shop view scans |
| DeckService.SubscriptionViewIsOwnerOnly | internal/deck/repository.go:336-337 | mode 1 answers iff mode 0 answers and the owner view scans, and a subscriber who is not the owner never gets the subscription view |
| DeckService.SharedDeckBreaksCountViews | internal/deck/repository.go:120-121 | once the owner (whom `Create` subscribes) and another account both subscribe, the owner view and the shop view fail with a scan error while the subscription view still answers the owner |
| DeckService.ShopShowsPrivateDecks | internal/deck/repository.go:142-166 | the shop view never answers `DeckNotFound` for a private deck whatever the token, answers iff its count scans, and then names the owner |
| ProgressRepository.Create | internal/progress/repository.go:60-76 | inserts the default row for (token's account, card); an existing pair is `ProgressExists`, a missing card `CardNotFound`, an unknown token `InvalidToken` |
| ProgressRepository.Progress | internal/progress/repository.go:78-106 | the row of (token's account, card), or `ProgressNotFound` |
| ProgressRepository.Delete | internal/progress/repository.go:108-127 | removes only that pair's row; nothing removed is `ProgressNotFound` |
| ProgressRepository.UpsertQuery.AppendToStringMap | internal/progress/repository.go:215-217 | appends to the text under the key, a missing key reading as the empty string; nothing else changes |
| ProgressRepository.WriteEntry | internal/progress/repository.go:192-205 | a comma goes on all three parts exactly when the column part is past its head, then the entry's items |
| ProgressRepository.AddEntry | internal/progress/repository.go:192-212 | one entry's text goes into the three parts and, unless it is `acc_id`, its value onto the arguments |
| ProgressRepository.UpsertProgressField | internal/progress/repository.go:179-213 | a nil pointer or empty text is skipped; a nil ease is not skipped and panics; `acc_id` adds the literal column and no argument; any other field adds ` ?` and one dereferenced argument |
| ProgressRepository.UpsertKeys | internal/progress/repository.go:137-139 | the `acc_id`, `card_id` and `ease` calls write their entries in order, and fail exactly on a nil ease |
| ProgressRepository.Collect | internal/progress/repository.go:137-149 | the field calls run in source order; the walk completes exactly when the ease is present, and then the statement parts hold the entries of every supplied field |
| ProgressRepository.Close | internal/progress/repository.go:152-154 | closes the column list, appends the `FROM ACCOUNT WHERE token = ?` tail and binds the token as the last argument |
| ProgressRepository.BuildUpsert | internal/progress/repository.go:129-156 | the statement is the three parts joined by spaces, with the token as the last argument and one `?` per argument; a nil ease is `NilDereference` |
| ProgressRepository.UpsertPlaceholders | internal/progress/repository.go:152-156 | the upsert text has one `?` per bound field plus one for the token |
| ProgressRepository.StatementWritesApply | internal/progress/repository.go:137-149 | each column of the row the upsert leaves holds the last value bound to it, or its previous value |
| ProgressRepository.AssignedEntries | internal/progress/repository.go:137-149 | the value the calls bind to each column is the request's dereferenced pointer for it, and the ease always |
| ProgressRepository.UpsertConsistent | internal/progress/repository.go:129-177 | writing the row of an existing account and card keeps the schema's integrity |
| ProgressRepository.Update | internal/progress/repository.go:129-177 | a nil ease panics; an unknown token inserts nothing; an empty token leaves `acc_id` without a value; a missing card fails the foreign key; otherwise the pair's row becomes `Apply` of the row before |
| ProgressService.Update | internal/progress/service.go:33-55 | no field is `BadField`; the pair's row is created when missing; then the upsert's outcome, case by case |
| ProgressService.ReadAfterUpdate | internal/progress/service.go:38-54 | after a successful update, reading the pair's row gives every supplied field's value |
| CardRepository.ById | internal/card/repository.go:146-167 | the card only under its own deck; any other pair is `CardNotFound` |
| CardRepository.ByDeckId | internal/card/repository.go:169-199 | exactly the cards of the deck; none is `CardNotFound` |
| CardRepository.WrongByCardId | internal/card/repository.go:288-313 | exactly the wrong answers of the card; none is `WrongNotFound` |
| CardRepository.ByProgress | internal/card/repository.go:58-65 | cards of the joined rows whose WHERE clause is true under SQL's three-valued logic; none is `CardNotFound` |
| CardRepository.SelectedIsDue | internal/card/repository.go:60-65 | a selected row has the token's account's progress row on the card, neither hidden nor buried |
| CardRepository.DueIsSelected | internal/card/repository.go:60-65 | a card in the deck with such a row is selected |
| CardRepository.ByProgressIsDue | internal/card/repository.go:201-231 | the query returns exactly the due cards, and `CardNotFound` exactly when there are none |
| CardRepository.UnreviewedNeverReturned | internal/card/repository.go:60-65 | a card the token's account has never reviewed is never returned |
| CardRepository.DueCards | internal/card/repository.go:58-65 | the corrected query: the account condition in the ON clause, the same filter |
| CardRepository.DueCardsIncludeUnreviewed | internal/card/repository.go:62-63 | the corrected query returns a deck's card iff the account never reviewed it or its row is neither hidden nor buried |
| CardRepository.WrongRows | internal/card/repository.go:126-135 | the wrong-answer rows inserted are numbered consecutively from the counter and carry the answers in order |
| CardRepository.InsertCardConsistent | internal/card/repository.go:110-117 | inserting a card into an existing deck keeps the schema's integrity |
| CardRepository.InsertWrongConsistent | internal/card/repository.go:126-135 | inserting a wrong answer of an existing card keeps the schema's integrity |
| CardRepository.InsertWrong | internal/card/repository.go:127 | one insert adds the next wrong-answer row of an existing card and advances the counter |
| CardRepository.AddedIsMerge | internal/card/repository.go:126-135 | inserting the answers one by one yields exactly the rows of `WrongRows` |
| CardRepository.Create | internal/card/repository.go:89-144 | a missing deck is `DeckNotFound`; a failure on any wrong answer rolls back; otherwise the card and all its answers are written together |
| CardRepository.UpdateCardField | internal/card/repository.go:347-358 | skips an empty text; otherwise adds one clause, after a comma unless the text is still a head, and one argument |
| CardRepository.CardColumns | internal/card/repository.go:238-242 | a column is in the SET list exactly when its text is not empty |
| CardRepository.BuildUpdate | internal/card/repository.go:233-246 | `UPDATE CARD SET` + the clauses + `WHERE card_id = ? AND deck_id = ?`, with one `?` per argument |
| CardRepository.PatchWritesSetList | internal/card/repository.go:233-267 | each assigned column holds its value, every other column keeps its value, and the card stays in its deck |
| CardRepository.PatchConsistent | internal/card/repository.go:233-267 | patching a card keeps the schema's integrity |
| CardRepository.Update | internal/card/repository.go:233-267 | an empty SET list is a syntax error; a card outside that deck is `CardNotFound`; otherwise only that card changes |
| CardRepository.BuildUpdateWrong | internal/card/repository.go:315-324 | `UPDATE WRONG_ANSWER SET answer = ? WHERE wrong_id = ?` when the answer is not empty |
| CardRepository.UpdateWrong | internal/card/repository.go:315-345 | an empty answer is a syntax error; an unknown wrong id is reported as `CardNotFound`; otherwise only that answer changes |
| CardRepository.Delete | internal/card/repository.go:269-286 | a card outside that deck is `CardNotFound`; otherwise the card is deleted with its answers and progress rows |
| CardService.CopyAnswers | internal/card/service.go:32-35 | the copied answers are the request's texts, in order and count |
| CardService.Create | internal/card/service.go:26-48 | an empty title or a count other than 3 is `BadField` with nothing written; otherwise the card and its three answers, in order, or nothing |
| CardService.CreatedCardReadsBack | internal/card/service.go:50-62 | reading back a created card gives the card and exactly its new answers |
| CardService.Card | internal/card/service.go:50-62 | the card and its wrong answers; a missing card is `CardNotFound` and a card without answers `WrongNotFound` |
| CardService.SetListEmpty | internal/card/service.go:71 | the card row is written exactly when one of its five texts is not empty |
| CardService.Updated | internal/card/service.go:90-99 | the count of eligible entries never exceeds the entries, and equals them iff every entry is eligible |
| CardService.Stop | internal/card/service.go:92-96 | the loop stops at the first eligible entry whose row is missing, or runs to the end |
| CardService.Rewritten | internal/card/service.go:91-99 | the rewrites keep every row's key and card |
| CardService.RewrittenIsLastWrite | internal/card/service.go:91-99 | every row ends with the text of the last eligible entry naming it, or keeps its own |
| CardService.RewrittenConsistent | internal/card/service.go:91-99 | the rewrites keep the schema's integrity |
| CardService.RewriteStep | internal/card/service.go:89-99 | one more entry adds one write, to the rows written so far, exactly when it is eligible |
| CardService.RewriteWrongs | internal/card/service.go:89-103 | writes eligible entries in order; a missing row stops with `CardNotFound`; fewer writes than entries is `AnswersNotUpdated(count)`; earlier writes persist |
| CardService.Update | internal/card/service.go:70-106 | the card row first when a text changes (errors returned at once), then the wrong-answer loop |
| CardService.FailureKeepsEarlierWrites | internal/card/service.go:93-96 | a failing update can leave an earlier answer rewritten |
| AccountRepository.Create | internal/account/repository.go:74-84 | a username or token already in use is `AccountExists` with nothing written; otherwise a new row with the next id |
| AccountRepository.ByToken | internal/account/repository.go:96-106 | the account is returned iff it holds the token and `token_expire >= now`; otherwise `AccountNotFound` |
| AccountRepository.CreatedAccountResolves | internal/account/repository.go:74-106 | a new account resolves by its token until the token expires |
| AccountRepository.ExpiredTokenStillResolves | internal/account/repository.go:99 | only this lookup checks expiry: the token subqueries of the other repositories still resolve an expired token |
| AccountRepository.UpdateField | internal/account/repository.go:175-191 | skips a zero time and an empty text; otherwise one clause and one argument |
| AccountRepository.BuildUpdate | internal/account/repository.go:108-124 | `UPDATE ACCOUNT SET` + clauses + `WHERE acc_id = ?`; `last_seen` is always written, so the SET list is never empty |
| AccountRepository.AccountColumns | internal/account/repository.go:115-121 | a column is assigned exactly when supplied, and `last_seen` always |
| AccountRepository.PatchWritesSetList | internal/account/repository.go:108-146 | each assigned column holds its value and every other column keeps its value |
| AccountRepository.ReplaceRowUnique | internal/account/repository.go:131-134 | a row whose new username and token no other row holds keeps both keys unique |
| AccountRepository.Update | internal/account/repository.go:108-146 | an unknown id is `AccountNotFound`; a username or token held by another account is error 1062; otherwise only that row changes |
| AccountRepository.PublicDecks | internal/account/repository.go:63-66 | the decks the unlink statement reaches are exactly the account's visible decks |
| AccountRepository.Unlink | internal/account/repository.go:63-66 | the account's public decks pass to account 1; every other deck is unchanged |
| AccountRepository.UnlinkConsistent | internal/account/repository.go:153-156 | the reassignment keeps the schema's integrity when account 1 exists |
| AccountRepository.Delete | internal/account/repository.go:148-173 | an unknown token is `AccountNotFound` with nothing changed; otherwise the public decks pass to account 1, then the account is deleted with its cascade |
| AccountRepository.DeleteKeepsPublicDecks | internal/account/repository.go:148-156 | after deletion the token resolves to nobody, public decks survive under account 1 with their cards, private decks are gone, and other accounts' decks are untouched |

## Left out

- The HTTP layer, routing, configuration and connection set-up are transport and wiring, so they are not modelled.
- Picture storage is not modelled. The deck service's image branch is a parameter saying whether the upload could be read and what storing it produced.
- internal/account/service.go is not part of this model. It wraps password hashing, random token generation, mail parsing and the clock.
- The account repository's `ById` and `ByUsername` are not modelled. They are plain key lookups that no modelled operation uses.
- The deck detail aggregates other than `is_subscribed` are not modelled: `subscriptions`, `cards`, `total_progress`, `cards_revised` and `cards_remaining`. The detail views state the non-aggregate columns and the `is_subscribed` count, which decides whether the scan into a `bool` succeeds. Ratings are not modelled.
- `ErrProgressExists` and `ErrProgressNotFound` are not declared in erro/erro.go:7-21, although internal/progress/repository.go:67, 100, 123 and internal/progress/service.go:41 use them. The model gives them their own error values.
- `scanDeck` and `scanDecks` scan into `deck.PicID` (internal/deck/repository.go:439, 463), but the `Deck` type of internal/deck/deck.go:5-13 has no such field. The model's deck row keeps its picture.
- The account row's `since` column, scanned by `scanaccount` (internal/account/repository.go:204), is not modelled. No modelled operation reads or writes it.
- `ErrDeckExists`, on deck insert, is not modelled. No unique key of DECK other than its id is known.
- Floating point is not modelled. The ease factor is an integer that is only stored and copied.
- The deck detail mode is an `int`. It does not wrap like Go's `int8`, but no modelled path depends on the width.
- The progress row's `progress_id`, `last_update` and creation date are not modelled.
- Infrastructure failures are left out: a lost connection, a failing `Prepare`, driver type assertions on `*mysql.MySQLError`. Exceptions:
  - card creation takes a `fault` index that stands for a driver error inside its transaction;
  - the picture-store outcome is a parameter.
- Rows-affected counts are simplified. MySQL reports changed rows; the model reads `affected == 0` as "no row matched". An UPDATE that rewrites a row with its own values is therefore a success in the model.
- AUTO_INCREMENT values consumed by a failed or rolled-back insert are not modelled. A rollback restores the counters.
- The DDL is not part of this model. The model assumes the following:
  - ACCOUNT's username and token are unique keys;
  - every foreign key cascades on delete;
  - PROGRESS columns default to zero and false;
  - DECK.pic_id defaults to the empty string, not NULL;
  - string comparison is exact (a binary collation), as `Taken`, `TokenAccount` and the username matches assume;
  - ACC_DECK has the key (acc_id, deck_id), so an account subscribes to a deck at most once;
  - `acc_id` has no default, so an upsert that leaves it out is error 1364;
  - `last_seen` of a new account and the deck timestamps take the insert time.
- The service pass-throughs are covered by the repository members they call:
  - progress `Create`, `Progress` and `Delete` (internal/progress/service.go:24-31, 57-59);
  - deck `AddDeckSubscription` and `RemoveDeckSubscription` (internal/deck/service.go:136-142);
  - card `Cards` and `Delete` (internal/card/service.go:64-68, 108-110).
- The request types in internal/card/dto carry no title, but the card service reads one. The model's requests have a title field.
- Go slices returned by the list reads become maps from id to row. The order of the rows is not modelled.
- Where the code's own intent and its behaviour disagree, the model follows the behaviour:
  - The `p.card_id IS NULL` branch of the due-cards query (internal/card/repository.go:63) means to include a never-reviewed card; the `a.token = ?` filter on the same query excludes it (see Findings).
  - The comment at internal/account/repository.go:97-98 places the expiry check in the repository for simplicity, but only `ByToken` applies it; every other token lookup accepts an expired token.
  - `UpdateWrong` reports an unknown wrong id as `CardNotFound`, although erro/erro.go:17 declares `ErrWrongNotFound`.
  - The card service's wrong-answer loop addresses rows by wrong id alone, so it can rewrite a wrong answer of another card.

## Findings

| source | as written | input that shows it | evidently intended | confidence | as-written member | corrected member |
|---|---|---|---|---|---|---|
| internal/card/repository.go:58-65 | `LEFT JOIN ACCOUNT a ON p.acc_id = a.acc_id` and then `a.token = ?` in the WHERE clause. On a card nobody reviewed, the NULL-extended row has a NULL token, so the `p.card_id IS NULL` branch never selects it. | A deck whose only card the requesting account has never reviewed: the query answers `CardNotFound` instead of returning the card. | Never-reviewed cards are due. The branch exists for them, and the account condition belongs in the join. | high; not executed | CardRepository.UnreviewedNeverReturned | CardRepository.DueCardsIncludeUnreviewed |
