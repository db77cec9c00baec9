/** The progress service: `Update` refuses a request that supplies no
    column, creates the (account, card) row when it is missing, and then
    runs the repository's upsert. */
module ProgressService {
  import opened Outcome
  import opened Schema
  import R = ProgressRepository

  /** True when the request supplies none of the eleven value columns. */
  predicate NothingToUpdate(req: R.UpdateRequest) {
    && req.ease.None? && req.interval.None? && req.priority.None? && req.daysHidden.None?
    && req.watchCount.None? && req.priorityExam.None? && req.daysHiddenExam.None?
    && req.answerCount.None? && req.correctCount.None?
    && req.isRelearning.None? && req.isBuried.None?
  }

  /** The row of the pair before the upsert. */
  function Before(progress: map<(AccId, CardId), Progress>, key: (AccId, CardId)): Progress {
    if key in progress then progress[key] else DefaultProgress
  }

  /** `Update`. Every outcome, by the state of the database:
      - nothing supplied: `BadField`, nothing written;
      - no account holds the token: the create step fails with
        `InvalidToken`, nothing written;
      - the card does not exist: `CardNotFound`, nothing written;
      - otherwise the pair's row exists afterwards (created with defaults
        if it was missing), and then a nil ease fails with
        `NilDereference`, an empty token with the missing `acc_id` default,
        and any other request writes `Apply` of the row before. */
  method Update(db: Store, req: R.UpdateRequest) returns (s: Status)
    requires db.Valid()
    modifies db
    ensures db.Valid()
    ensures NothingToUpdate(req) ==> s == Fail(BadField) && db.Snapshot() == old(db.Snapshot())
    ensures !NothingToUpdate(req) ==>
      var a := TokenAccount(old(db.accounts), req.token);
      && (a.None? ==> s == Fail(InvalidToken) && db.Snapshot() == old(db.Snapshot()))
      && (a.Some? && req.cardId !in old(db.cards) ==>
            s == Fail(CardNotFound) && db.Snapshot() == old(db.Snapshot()))
      && (a.Some? && req.cardId in old(db.cards) ==>
            var key := (a.value, req.cardId);
            var before := Before(old(db.progress), key);
            && (req.ease.None? ==>
                  (s == Fail(NilDereference)
                   && db.Snapshot() == old(db.Snapshot()).(progress := old(db.progress)[key := before])))
            && (req.ease.Some? && req.token == "" ==>
                  (s == Fail(Sql(NoDefault))
                   && db.Snapshot() == old(db.Snapshot()).(progress := old(db.progress)[key := before])))
            && (req.ease.Some? && req.token != "" ==>
                  (s == Pass
                   && db.Snapshot() == old(db.Snapshot()).(progress := old(db.progress)[key := R.Apply(before, req)]))))
  {
    if NothingToUpdate(req) {
      return Fail(BadField);
    }
    var current := R.Progress(db.Snapshot(), req.token, req.cardId);
    if current.Err? && current.error == ProgressNotFound {
      var created := R.Create(db, req.token, req.cardId);
      if created.Fail? {
        return created;
      }
    }
    s := R.Update(db, req);
  }

  /** Reading the row back after a successful update gives `Apply` of the
      row before it. */
  lemma ReadAfterUpdate(t: Tables, t': Tables, req: R.UpdateRequest, a: AccId)
    requires Consistent(t) && req.ease.Some?
    requires a in t.accounts && t.accounts[a].token == req.token
    requires t' == t.(progress := t.progress[(a, req.cardId) := R.Apply(Before(t.progress, (a, req.cardId)), req)])
    ensures R.Progress(t', req.token, req.cardId) == Ok(R.Apply(Before(t.progress, (a, req.cardId)), req))
  {
    assert TokenAccount(t'.accounts, req.token) == Some(a);
  }
}
