/** The progress repository: one PROGRESS row per (account, card), created
    with column defaults, read, deleted, and written by an upsert whose
    `INSERT ... SELECT ... ON DUPLICATE KEY UPDATE` text is assembled from
    the fields a request supplies. */
module ProgressRepository {
  import opened Outcome
  import opened Schema
  import opened SqlText

  /** The optional fields of an update; `None` is a nil pointer. */
  datatype UpdateRequest = UpdateRequest(
    token: string, cardId: CardId,
    ease: Option<Ease>,
    interval: Option<int>, priority: Option<int>, daysHidden: Option<int>,
    watchCount: Option<int>, priorityExam: Option<int>, daysHiddenExam: Option<int>,
    answerCount: Option<int>, correctCount: Option<int>,
    isRelearning: Option<bool>, isBuried: Option<bool>)

  // ---------------------------------------------------------------------
  // Create, read, delete

  /** `INSERT INTO PROGRESS (acc_id, card_id) VALUES ((SELECT ...), ?)`: an
      unknown token is `InvalidToken` (error 1048), a missing card
      `CardNotFound` (error 1452), an existing pair `ProgressExists` (error
      1062); otherwise a row with the column defaults appears. */
  method Create(db: Store, token: string, cardId: CardId) returns (s: Status)
    requires db.Valid()
    modifies db
    ensures db.Valid()
    ensures var a := TokenAccount(old(db.accounts), token);
      && (a.None? ==> s == Fail(InvalidToken))
      && (a.Some? && cardId !in old(db.cards) ==> s == Fail(CardNotFound))
      && (a.Some? && cardId in old(db.cards) && (a.value, cardId) in old(db.progress) ==> s == Fail(ProgressExists))
      && (s.Pass? <==> a.Some? && cardId in old(db.cards) && (a.value, cardId) !in old(db.progress))
      && (s.Pass? ==> db.Snapshot() == old(db.Snapshot()).(progress := old(db.progress)[(a.value, cardId) := DefaultProgress]))
      && (s.Fail? ==> db.Snapshot() == old(db.Snapshot()))
  {
    var a := TokenAccount(db.accounts, token);
    if a.None? {
      return Fail(InvalidToken);
    }
    if cardId !in db.cards {
      return Fail(CardNotFound);
    }
    if (a.value, cardId) in db.progress {
      return Fail(ProgressExists);
    }
    db.progress := db.progress[(a.value, cardId) := DefaultProgress];
    s := Pass;
  }

  /** `Progress`: the row of the card for the account holding the token
      (`WHERE a.token = ? AND p.card_id = ?`), or `ProgressNotFound`. */
  function Progress(t: Tables, token: string, cardId: CardId): (r: Result<Progress>)
    requires UniqueKeys(t.accounts)
    ensures r.Ok? <==> exists a :: a in t.accounts && t.accounts[a].token == token && (a, cardId) in t.progress
    ensures r.Ok? ==> forall a :: a in t.accounts && t.accounts[a].token == token ==> r.value == t.progress[(a, cardId)]
    ensures r.Err? ==> r.error == ProgressNotFound
  {
    var a := TokenAccount(t.accounts, token);
    if a.Some? && (a.value, cardId) in t.progress then Ok(t.progress[(a.value, cardId)])
    else Err(ProgressNotFound)
  }

  /** `DELETE FROM PROGRESS WHERE acc_id = (SELECT ...) AND card_id = ?`: an
      unknown token compares with NULL and deletes nothing, so every miss is
      `ProgressNotFound`. */
  method Delete(db: Store, token: string, cardId: CardId) returns (s: Status)
    requires db.Valid()
    modifies db
    ensures db.Valid()
    ensures var a := TokenAccount(old(db.accounts), token);
      && (s.Pass? <==> a.Some? && (a.value, cardId) in old(db.progress))
      && (s.Fail? ==> s == Fail(ProgressNotFound) && db.Snapshot() == old(db.Snapshot()))
      && (s.Pass? ==> db.Snapshot() == old(db.Snapshot()).(progress := old(db.progress) - {(a.value, cardId)}))
  {
    var a := TokenAccount(db.accounts, token);
    if a.None? || (a.value, cardId) !in db.progress {
      return Fail(ProgressNotFound);
    }
    db.progress := db.progress - {(a.value, cardId)};
    s := Pass;
  }

  // ---------------------------------------------------------------------
  // The upsert text

  /** Where the inserted value of a column comes from: the `acc_id` column
      of the selected ACCOUNT row, or a bound argument. */
  datatype Source = FromAccount | Bind(v: Value)

  /** A column of the upsert and the source of its value. */
  type Entry = (string, Source)

  const ColumnsPart := "insertColumns"
  const ValuesPart := "insertValues"
  const DuplicatePart := "onDuplicate"
  const ColumnsHead := "INSERT INTO PROGRESS ("
  const ValuesHead := "SELECT"
  const DuplicateHead := "ON DUPLICATE KEY UPDATE"
  /** `" FROM ACCOUNT WHERE token = ?"` */
  const FromAccountRow := " FROM ACCOUNT" + Where(["token"])

  function ColumnItem(e: Entry): string { " " + e.0 }
  function ValueItem(e: Entry): string { if e.1.FromAccount? then " acc_id" else " ?" }
  function DuplicateItem(e: Entry): string { " " + e.0 + " = VALUES(" + e.0 + ")" }

  function ColumnItems(es: seq<Entry>): (r: seq<string>)
    ensures |r| == |es| && forall i :: 0 <= i < |es| ==> r[i] == ColumnItem(es[i])
  {
    seq(|es|, i requires 0 <= i < |es| => ColumnItem(es[i]))
  }

  function ValueItems(es: seq<Entry>): (r: seq<string>)
    ensures |r| == |es| && forall i :: 0 <= i < |es| ==> r[i] == ValueItem(es[i])
  {
    seq(|es|, i requires 0 <= i < |es| => ValueItem(es[i]))
  }

  function DuplicateItems(es: seq<Entry>): (r: seq<string>)
    ensures |r| == |es| && forall i :: 0 <= i < |es| ==> r[i] == DuplicateItem(es[i])
  {
    seq(|es|, i requires 0 <= i < |es| => DuplicateItem(es[i]))
  }

  /** The three parts of the statement after the given entries. */
  function ColumnsText(es: seq<Entry>): string { ColumnsHead + Join(",", ColumnItems(es)) }
  function ValuesText(es: seq<Entry>): string { ValuesHead + Join(",", ValueItems(es)) }
  function DuplicateText(es: seq<Entry>): string { DuplicateHead + Join(",", DuplicateItems(es)) }

  /** The three keys of the query map are distinct. */
  lemma PartKeysDistinct()
    ensures ColumnsPart != ValuesPart && ColumnsPart != DuplicatePart && ValuesPart != DuplicatePart
  {
    assert |ColumnsPart| == 13 && |ValuesPart| == 12 && |DuplicatePart| == 11;
  }

  /** The query map holds the three given texts. */
  predicate Holds(parts: map<string, string>, c: string, v: string, d: string) {
    && ColumnsPart in parts && parts[ColumnsPart] == c
    && ValuesPart in parts && parts[ValuesPart] == v
    && DuplicatePart in parts && parts[DuplicatePart] == d
  }

  /** The query map holds the three parts for the given entries. */
  predicate HoldsParts(parts: map<string, string>, es: seq<Entry>) {
    Holds(parts, ColumnsText(es), ValuesText(es), DuplicateText(es))
  }

  /** Appending to one part of the map extends that text only. */
  lemma Appended(parts: map<string, string>, c: string, v: string, d: string, key: string, val: string)
    requires Holds(parts, c, v, d)
    requires key == ColumnsPart || key == ValuesPart || key == DuplicatePart
    ensures Holds(parts[key := parts[key] + val],
                  if key == ColumnsPart then c + val else c,
                  if key == ValuesPart then v + val else v,
                  if key == DuplicatePart then d + val else d)
  {
    PartKeysDistinct();
  }

  /** The arguments the entries bind, in order. */
  function Bindings(es: seq<Entry>): seq<Value> {
    if es == [] then []
    else Bindings(es[..|es| - 1]) + (if es[|es| - 1].1.Bind? then [es[|es| - 1].1.v] else [])
  }

  lemma BindingsSnoc(es: seq<Entry>, e: Entry)
    ensures Bindings(es + [e]) == Bindings(es) + (if e.1.Bind? then [e.1.v] else [])
  {
    assert (es + [e])[..|es|] == es;
  }

  /** Entries as the builder writes them: a proper column name, and the
      account source exactly for `acc_id`. */
  predicate WellFormed(es: seq<Entry>) {
    forall i :: 0 <= i < |es| ==> ColumnName(es[i].0) && (es[i].1.FromAccount? <==> es[i].0 == "acc_id")
  }

  lemma WellFormedSnoc(es: seq<Entry>, e: Entry)
    requires WellFormed(es) && ColumnName(e.0) && (e.1.FromAccount? <==> e.0 == "acc_id")
    ensures WellFormed(es + [e])
  {
    forall i | 0 <= i < |es + [e]|
      ensures ColumnName((es + [e])[i].0) && ((es + [e])[i].1.FromAccount? <==> (es + [e])[i].0 == "acc_id")
    {
      if i < |es| {
        assert (es + [e])[i] == es[i];
      }
    }
  }

  /** The statement text: `"%s %s %s"` of the three parts, once the closing
      parenthesis and the FROM clause have been appended. */
  function UpsertText(es: seq<Entry>): string {
    (ColumnsText(es) + ")") + " " + (ValuesText(es) + FromAccountRow) + " " + DuplicateText(es)
  }

  /** The query map and argument slice of `Update`, with the entries written
      so far as ghost state. */
  class UpsertQuery {
    var parts: map<string, string>
    var args: seq<Value>
    ghost var entries: seq<Entry>

    ghost predicate Valid()
      reads this
    {
      HoldsParts(parts, entries) && args == Bindings(entries) && WellFormed(entries)
    }

    constructor ()
      ensures Valid() && entries == []
    {
      parts := map[ColumnsPart := ColumnsHead, ValuesPart := ValuesHead, DuplicatePart := DuplicateHead];
      args := [];
      entries := [];
      PartKeysDistinct();
    }

    /** `appendToStringMap`: a missing key reads as the empty string. */
    method AppendToStringMap(key: string, val: string)
      modifies this
      ensures parts == old(parts)[key := (if key in old(parts) then old(parts)[key] else "") + val]
      ensures args == old(args) && entries == old(entries)
    {
      parts := parts[key := (if key in parts then parts[key] else "") + val];
    }
  }

  /** A value handed to `upsertProgressField`: the token string, the card
      id, or a pointer (nil is `None`). */
  datatype Arg = TextArg(s: string) | IdArg(n: int) | EasePtr(e: Option<Ease>) | IntPtr(i: Option<int>) | BoolPtr(b: Option<bool>)

  /** The skip test: a nil `*bool` or `*int`, or the empty string. A nil
      `*float32` is not among them. */
  predicate Skipped(v: Arg) {
    match v
    case TextArg(s) => s == ""
    case IdArg(_) => false
    case EasePtr(_) => false
    case IntPtr(i) => i.None?
    case BoolPtr(b) => b.None?
  }

  /** The dereferenced argument; a nil `*float32` has none (the Go code
      panics on it). */
  function Deref(v: Arg): Option<Value> {
    match v
    case TextArg(s) => Some(Text(s))
    case IdArg(n) => Some(Number(n))
    case EasePtr(e) => if e.Some? then Some(Real(e.value)) else None
    case IntPtr(i) => if i.Some? then Some(Number(i.value)) else None
    case BoolPtr(b) => if b.Some? then Some(Flag(b.value)) else None
  }

  /** The entries one call adds: none for a skipped value, otherwise the
      column with the account as source (the token) or the bound value. */
  function Piece(field: string, v: Arg): seq<Entry>
    requires v != EasePtr(None)
  {
    if Skipped(v) then []
    else if v.TextArg? then [(field, FromAccount)]
    else [(field, Bind(Deref(v).value))]
  }

  /** Adding one entry extends each part by a comma (unless it is the first
      entry) and its own item. */
  lemma ColumnsSnoc(es: seq<Entry>, e: Entry)
    ensures ColumnsText(es + [e]) == ColumnsText(es) + (if es == [] then "" else ",") + ColumnItem(e)
  {
    assert ColumnItems(es + [e]) == ColumnItems(es) + [ColumnItem(e)];
    JoinSnoc(",", ColumnItems(es), ColumnItem(e));
  }

  lemma ValuesSnoc(es: seq<Entry>, e: Entry)
    ensures ValuesText(es + [e]) == ValuesText(es) + (if es == [] then "" else ",") + ValueItem(e)
  {
    assert ValueItems(es + [e]) == ValueItems(es) + [ValueItem(e)];
    JoinSnoc(",", ValueItems(es), ValueItem(e));
  }

  lemma DuplicateSnoc(es: seq<Entry>, e: Entry)
    ensures DuplicateText(es + [e]) == DuplicateText(es) + (if es == [] then "" else ",") + DuplicateItem(e)
  {
    assert DuplicateItems(es + [e]) == DuplicateItems(es) + [DuplicateItem(e)];
    JoinSnoc(",", DuplicateItems(es), DuplicateItem(e));
  }

  lemma PartsSnoc(es: seq<Entry>, e: Entry)
    ensures ColumnsText(es + [e]) == ColumnsText(es) + (if es == [] then "" else ",") + ColumnItem(e)
    ensures ValuesText(es + [e]) == ValuesText(es) + (if es == [] then "" else ",") + ValueItem(e)
    ensures DuplicateText(es + [e]) == DuplicateText(es) + (if es == [] then "" else ",") + DuplicateItem(e)
  {
    ColumnsSnoc(es, e);
    ValuesSnoc(es, e);
    DuplicateSnoc(es, e);
  }

  /** The column part equals its head exactly when nothing has been written:
      the test `upsertProgressField` uses to decide on the commas. */
  lemma ColumnsHeadOnlyWhenEmpty(es: seq<Entry>)
    ensures ColumnsText(es) == ColumnsHead <==> es == []
  {
    if es != [] {
      JoinEndsWithLast(",", ColumnItems(es));
      assert |ColumnsText(es)| > |ColumnsHead|;
    }
  }

  /** Appends `val` to one part of the query map. */
  method AppendPart(q: UpsertQuery, key: string, val: string, ghost c: string, ghost v: string, ghost d: string)
    requires Holds(q.parts, c, v, d)
    requires key == ColumnsPart || key == ValuesPart || key == DuplicatePart
    modifies q
    ensures Holds(q.parts,
                  if key == ColumnsPart then c + val else c,
                  if key == ValuesPart then v + val else v,
                  if key == DuplicatePart then d + val else d)
    ensures q.args == old(q.args) && q.entries == old(q.entries)
  {
    Appended(q.parts, c, v, d, key, val);
    q.AppendToStringMap(key, val);
  }

  /** The separating commas, written to the three parts in turn. */
  method Separate(q: UpsertQuery, ghost c: string, ghost v: string, ghost d: string)
    requires Holds(q.parts, c, v, d)
    modifies q
    ensures Holds(q.parts, c + ",", v + ",", d + ",")
    ensures q.args == old(q.args) && q.entries == old(q.entries)
  {
    AppendPart(q, ColumnsPart, ",", c, v, d);
    AppendPart(q, ValuesPart, ",", c + ",", v, d);
    AppendPart(q, DuplicatePart, ",", c + ",", v + ",", d);
  }

  /** The items of one entry, written to the three parts (column, duplicate
      clause, then value, as the Go code does). */
  method WriteItems(q: UpsertQuery, e: Entry, ghost c: string, ghost v: string, ghost d: string)
    requires Holds(q.parts, c, v, d)
    modifies q
    ensures Holds(q.parts, c + ColumnItem(e), v + ValueItem(e), d + DuplicateItem(e))
    ensures q.args == old(q.args) && q.entries == old(q.entries)
  {
    AppendPart(q, ColumnsPart, " " + e.0, c, v, d);
    AppendPart(q, DuplicatePart, " " + e.0 + " = VALUES(" + e.0 + ")", c + ColumnItem(e), v, d);
    if e.1.FromAccount? {
      AppendPart(q, ValuesPart, " acc_id", c + ColumnItem(e), v, d + DuplicateItem(e));
    } else {
      AppendPart(q, ValuesPart, " ?", c + ColumnItem(e), v, d + DuplicateItem(e));
    }
  }

  /** The text one entry adds to the three parts: the commas when the
      column part is past its head, then the entry's items. */
  method WriteEntry(q: UpsertQuery, e: Entry, ghost es: seq<Entry>)
    requires HoldsParts(q.parts, es)
    modifies q
    ensures HoldsParts(q.parts, es + [e])
    ensures q.args == old(q.args) && q.entries == old(q.entries)
  {
    ColumnsHeadOnlyWhenEmpty(es);
    PartKeysDistinct();
    PartsSnoc(es, e);
    if q.parts[ColumnsPart] != ColumnsHead {
      Separate(q, ColumnsText(es), ValuesText(es), DuplicateText(es));
      WriteItems(q, e, ColumnsText(es) + ",", ValuesText(es) + ",", DuplicateText(es) + ",");
    } else {
      WriteItems(q, e, ColumnsText(es), ValuesText(es), DuplicateText(es));
    }
  }

  /** Writes one entry: its text into the three parts and, unless it is
      `acc_id`, its value onto the arguments. */
  method AddEntry(q: UpsertQuery, e: Entry)
    requires q.Valid() && ColumnName(e.0) && (e.1.FromAccount? <==> e.0 == "acc_id")
    modifies q
    ensures q.Valid() && q.entries == old(q.entries) + [e]
  {
    ghost var es := q.entries;
    WriteEntry(q, e, es);
    BindingsSnoc(es, e);
    WellFormedSnoc(es, e);
    if e.1.Bind? {
      q.args := q.args + [e.1.v];
    }
    q.entries := es + [e];
  }

  /** `upsertProgressField`. A skipped value leaves everything as it was.
      Otherwise the three parts get a comma (unless first) and the column's
      item, and the dereferenced value is appended to the arguments; for
      `acc_id` the value part selects the column and no argument is bound.
      A nil ease is not skipped: dereferencing it fails, reported as
      `ok == false`. */
  method UpsertProgressField(q: UpsertQuery, field: string, value: Arg) returns (ok: bool)
    requires q.Valid() && ColumnName(field)
    requires field == "acc_id" <==> value.TextArg?
    modifies q
    ensures ok <==> value != EasePtr(None)
    ensures ok ==> q.Valid()
    ensures ok ==> q.entries == old(q.entries) + Piece(field, value)
  {
    if Skipped(value) {
      return true;
    }
    var arg := Deref(value);
    if value.EasePtr? && arg.None? {
      return false;
    }
    var e: Entry := if value.TextArg? then (field, FromAccount) else (field, Bind(arg.value));
    AddEntry(q, e);
    ok := true;
  }

  // ---------------------------------------------------------------------
  // The whole statement

  /** The entries `Update` writes, call by call in the order of the Go code. */
  function Entries(req: UpdateRequest): seq<Entry>
    requires req.ease.Some?
  {
    Piece("acc_id", TextArg(req.token)) + Piece("card_id", IdArg(req.cardId))
    + Piece("ease", EasePtr(req.ease)) + Piece("`interval`", IntPtr(req.interval))
    + Piece("priority", IntPtr(req.priority)) + Piece("days_hidden", IntPtr(req.daysHidden))
    + Piece("watch_count", IntPtr(req.watchCount)) + Piece("priority_exam", IntPtr(req.priorityExam))
    + Piece("days_hidden_exam", IntPtr(req.daysHiddenExam)) + Piece("answer_count", IntPtr(req.answerCount))
    + Piece("correct_count", IntPtr(req.correctCount)) + Piece("is_relearning", BoolPtr(req.isRelearning))
    + Piece("is_buried", BoolPtr(req.isBuried))
  }

  /** The columns `Update` names are proper column names, and only the first
      is `acc_id`. */
  lemma KeyColumns()
    ensures ColumnName("acc_id") && ColumnName("card_id") && ColumnName("ease")
    ensures "card_id" != "acc_id" && "ease" != "acc_id"
  {
  }

  lemma CounterColumns()
    ensures ColumnName("`interval`") && ColumnName("priority") && ColumnName("days_hidden")
    ensures ColumnName("watch_count")
    ensures "`interval`" != "acc_id" && "priority" != "acc_id"
    ensures "days_hidden" != "acc_id" && "watch_count" != "acc_id"
  {
  }

  lemma ExamColumns()
    ensures ColumnName("priority_exam") && ColumnName("days_hidden_exam")
    ensures ColumnName("answer_count") && ColumnName("correct_count")
    ensures "priority_exam" != "acc_id" && "days_hidden_exam" != "acc_id"
    ensures "answer_count" != "acc_id" && "correct_count" != "acc_id"
  {
  }

  lemma FlagColumns()
    ensures ColumnName("is_relearning") && ColumnName("is_buried")
    ensures "is_relearning" != "acc_id" && "is_buried" != "acc_id"
  {
  }

  /** The closing parenthesis, the FROM clause and its token argument, and
      the `"%s %s %s"` formatting of the three parts. */
  method Close(q: UpsertQuery, token: string) returns (text: string)
    requires q.Valid()
    modifies q
    ensures text == UpsertText(q.entries)
    ensures q.args == old(q.args) + [Text(token)] && q.entries == old(q.entries)
  {
    ghost var es := q.entries;
    AppendPart(q, ColumnsPart, ")", ColumnsText(es), ValuesText(es), DuplicateText(es));
    AppendPart(q, ValuesPart, FromAccountRow, ColumnsText(es) + ")", ValuesText(es), DuplicateText(es));
    q.args := q.args + [Text(token)];
    text := q.parts[ColumnsPart] + " " + q.parts[ValuesPart] + " " + q.parts[DuplicatePart];
  }

  /** The calls for `acc_id`, `card_id` and `ease`; the last fails on a
      nil ease. */
  method UpsertKeys(q: UpsertQuery, req: UpdateRequest) returns (ok: bool)
    requires q.Valid() && q.entries == []
    modifies q
    ensures ok <==> req.ease.Some?
    ensures ok ==> q.Valid()
    ensures ok ==> q.entries == Piece("acc_id", TextArg(req.token)) + Piece("card_id", IdArg(req.cardId))
                                + Piece("ease", EasePtr(req.ease))
  {
    KeyColumns();
    ok := UpsertProgressField(q, "acc_id", TextArg(req.token));
    assert q.entries == Piece("acc_id", TextArg(req.token));
    ok := UpsertProgressField(q, "card_id", IdArg(req.cardId));
    ok := UpsertProgressField(q, "ease", EasePtr(req.ease));
  }

  /** The calls for `interval` through `days_hidden_exam`. */
  method UpsertSchedule(q: UpsertQuery, req: UpdateRequest)
    requires q.Valid()
    modifies q
    ensures q.Valid()
    ensures q.entries == old(q.entries)
      + Piece("`interval`", IntPtr(req.interval)) + Piece("priority", IntPtr(req.priority))
      + Piece("days_hidden", IntPtr(req.daysHidden)) + Piece("watch_count", IntPtr(req.watchCount))
      + Piece("priority_exam", IntPtr(req.priorityExam)) + Piece("days_hidden_exam", IntPtr(req.daysHiddenExam))
  {
    CounterColumns();
    ExamColumns();
    var ok := UpsertProgressField(q, "`interval`", IntPtr(req.interval));
    ok := UpsertProgressField(q, "priority", IntPtr(req.priority));
    ok := UpsertProgressField(q, "days_hidden", IntPtr(req.daysHidden));
    ok := UpsertProgressField(q, "watch_count", IntPtr(req.watchCount));
    ok := UpsertProgressField(q, "priority_exam", IntPtr(req.priorityExam));
    ok := UpsertProgressField(q, "days_hidden_exam", IntPtr(req.daysHiddenExam));
  }

  /** The calls for `answer_count` through `is_buried`. */
  method UpsertAnswers(q: UpsertQuery, req: UpdateRequest)
    requires q.Valid()
    modifies q
    ensures q.Valid()
    ensures q.entries == old(q.entries)
      + Piece("answer_count", IntPtr(req.answerCount)) + Piece("correct_count", IntPtr(req.correctCount))
      + Piece("is_relearning", BoolPtr(req.isRelearning)) + Piece("is_buried", BoolPtr(req.isBuried))
  {
    ExamColumns();
    FlagColumns();
    var ok := UpsertProgressField(q, "answer_count", IntPtr(req.answerCount));
    ok := UpsertProgressField(q, "correct_count", IntPtr(req.correctCount));
    ok := UpsertProgressField(q, "is_relearning", BoolPtr(req.isRelearning));
    ok := UpsertProgressField(q, "is_buried", BoolPtr(req.isBuried));
  }

  /** The thirteen `upsertProgressField` calls on a fresh query, stopping at
      a nil ease. */
  method Collect(req: UpdateRequest) returns (q: UpsertQuery, ok: bool)
    ensures fresh(q)
    ensures ok <==> req.ease.Some?
    ensures ok ==> q.Valid() && q.entries == Entries(req)
  {
    q := new UpsertQuery();
    ok := UpsertKeys(q, req);
    if !ok {
      return;
    }
    UpsertSchedule(q, req);
    UpsertAnswers(q, req);
  }

  /** The text and arguments `Update` prepares. A nil ease makes the Go code
      panic while the text is being built (`NilDereference`); otherwise the
      text lists the supplied columns and the arguments bind them, followed by
      the token of the FROM clause. */
  method BuildUpsert(req: UpdateRequest) returns (r: Result<(string, seq<Value>)>)
    ensures r.Err? <==> req.ease.None?
    ensures r.Err? ==> r.error == NilDereference
    ensures r.Ok? ==> r.value == (UpsertText(Entries(req)), Bindings(Entries(req)) + [Text(req.token)])
    ensures r.Ok? ==> CountChar('?', r.value.0) == |r.value.1|
  {
    var q, ok := Collect(req);
    if !ok {
      return Err(NilDereference);
    }
    UpsertPlaceholders(q.entries);
    var text := Close(q, req.token);
    r := Ok((text, q.args));
  }

  /** Column names and the duplicate clauses carry no placeholder. */
  lemma PartsWithoutMarks(es: seq<Entry>)
    requires WellFormed(es)
    ensures '?' !in ColumnsText(es) && '?' !in DuplicateText(es)
  {
    var cs, ds := ColumnItems(es), DuplicateItems(es);
    forall i | 0 <= i < |es| ensures '?' !in cs[i] && '?' !in ds[i] {
      assert ColumnName(es[i].0);
    }
    JoinAbsent('?', ",", cs);
    JoinAbsent('?', ",", ds);
  }

  lemma TokenKeyMark()
    ensures CountChar('?', Where(["token"])) == 1
  {
    assert ColumnName("token");
    WherePlaceholders(["token"]);
  }

  /** The FROM clause holds the token's placeholder. */
  lemma FromClauseMark()
    ensures CountChar('?', FromAccountRow) == 1
  {
    TokenKeyMark();
    FromTableMark();
    CountConcat('?', " FROM ACCOUNT", Where(["token"]));
  }

  lemma FromTableMark()
    ensures CountChar('?', " FROM ACCOUNT") == 0
  {
    CountAbsent('?', " FROM ACCOUNT");
  }

  /** The fixed texts other than the FROM clause hold no placeholder. */
  lemma FixedMarks()
    ensures CountChar('?', ValuesHead) == 0 && CountChar('?', " ") == 0
    ensures CountChar('?', " acc_id") == 0 && CountChar('?', " ?") == 1
    ensures '?' !in ")" && '?' !in " "
  {
    CountAbsent('?', ValuesHead);
    CountAbsent('?', " acc_id");
  }

  /** The value part has one placeholder per bound entry. */
  lemma {:induction false} ValueMarks(es: seq<Entry>)
    ensures CountChar('?', Join(",", ValueItems(es))) == |Bindings(es)|
  {
    if es != [] {
      var init, e := es[..|es| - 1], es[|es| - 1];
      assert es == init + [e];
      ValueMarks(init);
      assert ValueItems(es) == ValueItems(init) + [ValueItem(e)];
      JoinSnoc(",", ValueItems(init), ValueItem(e));
      BindingsSnoc(init, e);
      FixedMarks();
      var j := Join(",", ValueItems(init));
      if init == [] {
        assert Join(",", ValueItems(es)) == ValueItem(e);
      } else {
        CountConcat('?', j + ",", ValueItem(e));
        CountConcat('?', j, ",");
      }
      assert CountChar('?', ValueItem(e)) == if e.1.Bind? then 1 else 0;
    }
  }

  /** The statement has one placeholder per argument `Update` binds: one
      per supplied column other than `acc_id`, and the token of the FROM
      clause. */
  lemma UpsertPlaceholders(es: seq<Entry>)
    requires WellFormed(es)
    ensures CountChar('?', UpsertText(es)) == |Bindings(es)| + 1
  {
    var c, v, d := ColumnsText(es), ValuesText(es), DuplicateText(es);
    PartsWithoutMarks(es);
    FromClauseMark();
    FixedMarks();
    CountAbsent('?', c + ")" + " ");
    CountAbsent('?', d);
    ValueMarks(es);
    CountConcat('?', ValuesHead, Join(",", ValueItems(es)));
    CountConcat('?', v, FromAccountRow);
    CountConcat('?', c + ")" + " ", v + FromAccountRow);
    CountConcat('?', c + ")" + " " + (v + FromAccountRow), " ");
    CountConcat('?', c + ")" + " " + (v + FromAccountRow) + " ", d);
  }

  // ---------------------------------------------------------------------
  // What the statement does to the row

  /** The value columns of a PROGRESS row. */
  datatype Column = EaseCol | IntervalCol | PriorityCol | DaysHiddenCol | WatchCountCol
                  | PriorityExamCol | DaysHiddenExamCol | AnswerCountCol | CorrectCountCol
                  | IsRelearningCol | IsBuriedCol

  function ColumnOf(col: Column): string {
    match col
    case EaseCol => "ease"
    case IntervalCol => "`interval`"
    case PriorityCol => "priority"
    case DaysHiddenCol => "days_hidden"
    case WatchCountCol => "watch_count"
    case PriorityExamCol => "priority_exam"
    case DaysHiddenExamCol => "days_hidden_exam"
    case AnswerCountCol => "answer_count"
    case CorrectCountCol => "correct_count"
    case IsRelearningCol => "is_relearning"
    case IsBuriedCol => "is_buried"
  }

  /** The value stored in one column. */
  function Cell(p: Progress, col: Column): Value {
    match col
    case EaseCol => Real(p.ease)
    case IntervalCol => Number(p.interval)
    case PriorityCol => Number(p.priority)
    case DaysHiddenCol => Number(p.daysHidden)
    case WatchCountCol => Number(p.watchCount)
    case PriorityExamCol => Number(p.priorityExam)
    case DaysHiddenExamCol => Number(p.daysHiddenExam)
    case AnswerCountCol => Number(p.answerCount)
    case CorrectCountCol => Number(p.correctCount)
    case IsRelearningCol => Flag(p.isRelearning)
    case IsBuriedCol => Flag(p.isBuried)
  }

  /** The value the statement assigns to the named column: the last bound
      entry of that name, if any. */
  function Assigned(es: seq<Entry>, name: string): Option<Value> {
    if es == [] then None
    else if es[|es| - 1].0 == name && es[|es| - 1].1.Bind? then Some(es[|es| - 1].1.v)
    else Assigned(es[..|es| - 1], name)
  }

  function Or<T>(o: Option<T>, default: T): T {
    if o.Some? then o.value else default
  }

  /** The row after the upsert, from the row before it (the stored row, or
      the column defaults when the pair had none): every supplied column
      takes its new value, every other column keeps its own. */
  function Apply(p: Progress, req: UpdateRequest): Progress
    requires req.ease.Some?
  {
    Schema.Progress(req.ease.value, Or(req.interval, p.interval), Or(req.priority, p.priority),
                    Or(req.daysHidden, p.daysHidden), Or(req.watchCount, p.watchCount),
                    Or(req.priorityExam, p.priorityExam), Or(req.daysHiddenExam, p.daysHiddenExam),
                    Or(req.answerCount, p.answerCount), Or(req.correctCount, p.correctCount),
                    Or(req.isRelearning, p.isRelearning), Or(req.isBuried, p.isBuried))
  }

  lemma {:induction false} AssignedConcat(a: seq<Entry>, b: seq<Entry>, name: string)
    ensures Assigned(a + b, name) == if Assigned(b, name).Some? then Assigned(b, name) else Assigned(a, name)
  {
    if b != [] {
      assert (a + b)[..|a + b| - 1] == a + b[..|b| - 1];
      AssignedConcat(a, b[..|b| - 1], name);
    } else {
      assert a + b == a;
    }
  }

  lemma AssignedPiece(field: string, v: Arg, name: string)
    requires v != EasePtr(None)
    ensures Assigned(Piece(field, v), name)
         == if !Skipped(v) && !v.TextArg? && field == name then Deref(v) else None
  {
  }

  /** Which of the names `Update` writes is the name of a given column. */
  lemma NameMatches(col: Column)
    ensures "acc_id" != ColumnOf(col) && "card_id" != ColumnOf(col)
    ensures "ease" == ColumnOf(col) <==> col == EaseCol
    ensures "`interval`" == ColumnOf(col) <==> col == IntervalCol
    ensures "priority" == ColumnOf(col) <==> col == PriorityCol
    ensures "days_hidden" == ColumnOf(col) <==> col == DaysHiddenCol
    ensures "watch_count" == ColumnOf(col) <==> col == WatchCountCol
    ensures "priority_exam" == ColumnOf(col) <==> col == PriorityExamCol
    ensures "days_hidden_exam" == ColumnOf(col) <==> col == DaysHiddenExamCol
    ensures "answer_count" == ColumnOf(col) <==> col == AnswerCountCol
    ensures "correct_count" == ColumnOf(col) <==> col == CorrectCountCol
    ensures "is_relearning" == ColumnOf(col) <==> col == IsRelearningCol
    ensures "is_buried" == ColumnOf(col) <==> col == IsBuriedCol
  {
  }

  /** The statement and `Apply` agree column by column: a column the
      statement assigns gets the bound value, any other keeps the value of
      the row before (the stored row on a duplicate key, the defaults on an
      insert). */
  lemma StatementWritesApply(p: Progress, req: UpdateRequest, col: Column)
    requires req.ease.Some?
    ensures Cell(Apply(p, req), col) == Or(Assigned(Entries(req), ColumnOf(col)), Cell(p, col))
  {
    AssignedEntries(req, col);
  }

  /** One field call seen from one column: the entry it adds, if any,
      overrides what the earlier calls bound to that column. */
  lemma AssignedSnoc(es: seq<Entry>, field: string, v: Arg, name: string)
    requires v != EasePtr(None)
    ensures Assigned(es + Piece(field, v), name)
         == if !Skipped(v) && !v.TextArg? && field == name then Deref(v) else Assigned(es, name)
  {
    AssignedPiece(field, v, name);
    AssignedConcat(es, Piece(field, v), name);
  }

  /** The value the field calls of `Update` bind to a column: the later
      call wins, and only a supplied pointer binds. */
  lemma AssignedEntries(req: UpdateRequest, col: Column)
    requires req.ease.Some?
    ensures Assigned(Entries(req), ColumnOf(col)) ==
      match col
      case EaseCol => Deref(EasePtr(req.ease))
      case IntervalCol => Deref(IntPtr(req.interval))
      case PriorityCol => Deref(IntPtr(req.priority))
      case DaysHiddenCol => Deref(IntPtr(req.daysHidden))
      case WatchCountCol => Deref(IntPtr(req.watchCount))
      case PriorityExamCol => Deref(IntPtr(req.priorityExam))
      case DaysHiddenExamCol => Deref(IntPtr(req.daysHiddenExam))
      case AnswerCountCol => Deref(IntPtr(req.answerCount))
      case CorrectCountCol => Deref(IntPtr(req.correctCount))
      case IsRelearningCol => Deref(BoolPtr(req.isRelearning))
      case IsBuriedCol => Deref(BoolPtr(req.isBuried))
  {
    var name := ColumnOf(col);
    NameMatches(col);
    var s0 := Piece("acc_id", TextArg(req.token));
    AssignedPiece("acc_id", TextArg(req.token), name);
    var s1 := s0 + Piece("card_id", IdArg(req.cardId));
    AssignedSnoc(s0, "card_id", IdArg(req.cardId), name);
    var s2 := s1 + Piece("ease", EasePtr(req.ease));
    AssignedSnoc(s1, "ease", EasePtr(req.ease), name);
    var s3 := s2 + Piece("`interval`", IntPtr(req.interval));
    AssignedSnoc(s2, "`interval`", IntPtr(req.interval), name);
    var s4 := s3 + Piece("priority", IntPtr(req.priority));
    AssignedSnoc(s3, "priority", IntPtr(req.priority), name);
    var s5 := s4 + Piece("days_hidden", IntPtr(req.daysHidden));
    AssignedSnoc(s4, "days_hidden", IntPtr(req.daysHidden), name);
    var s6 := s5 + Piece("watch_count", IntPtr(req.watchCount));
    AssignedSnoc(s5, "watch_count", IntPtr(req.watchCount), name);
    var s7 := s6 + Piece("priority_exam", IntPtr(req.priorityExam));
    AssignedSnoc(s6, "priority_exam", IntPtr(req.priorityExam), name);
    var s8 := s7 + Piece("days_hidden_exam", IntPtr(req.daysHiddenExam));
    AssignedSnoc(s7, "days_hidden_exam", IntPtr(req.daysHiddenExam), name);
    var s9 := s8 + Piece("answer_count", IntPtr(req.answerCount));
    AssignedSnoc(s8, "answer_count", IntPtr(req.answerCount), name);
    var s10 := s9 + Piece("correct_count", IntPtr(req.correctCount));
    AssignedSnoc(s9, "correct_count", IntPtr(req.correctCount), name);
    var s11 := s10 + Piece("is_relearning", BoolPtr(req.isRelearning));
    AssignedSnoc(s10, "is_relearning", BoolPtr(req.isRelearning), name);
    AssignedSnoc(s11, "is_buried", BoolPtr(req.isBuried), name);
    assert Entries(req) == s11 + Piece("is_buried", BoolPtr(req.isBuried));
  }


  // ---------------------------------------------------------------------
  // Update

  /** Writing the row of an existing account and card keeps the schema's
      guarantees. */
  lemma UpsertConsistent(t: Tables, key: (AccId, CardId), row: Progress)
    requires Consistent(t) && key.0 in t.accounts && key.1 in t.cards
    ensures Consistent(t.(progress := t.progress[key := row]))
  {
  }

  /** `Update`: builds the upsert, then runs it. A nil ease panics while
      building (`NilDereference`). The SELECT picks the account holding the
      token: when none does, no row is inserted and nothing fails. An empty
      token leaves `acc_id` out of the column list, so the selected row
      cannot be inserted (error 1364, no default for `acc_id`). A card that
      does not exist fails the foreign key (error 1452). Otherwise the row
      of the pair becomes `Apply` of the row before: the stored row when the
      pair exists, the column defaults when it does not. */
  method Update(db: Store, req: UpdateRequest) returns (s: Status)
    requires db.Valid()
    modifies db
    ensures db.Valid()
    ensures req.ease.None? ==> s == Fail(NilDereference)
    ensures req.ease.Some? ==>
      var a := TokenAccount(old(db.accounts), req.token);
      && (a.None? ==> s == Pass)
      && (a.Some? && req.token == "" ==> s == Fail(Sql(NoDefault)))
      && (a.Some? && req.token != "" && req.cardId !in old(db.cards) ==> s == Fail(Sql(ForeignKey)))
      && (a.Some? && req.token != "" && req.cardId in old(db.cards) ==>
            var key := (a.value, req.cardId);
            var before := if key in old(db.progress) then old(db.progress)[key] else DefaultProgress;
            s == Pass && db.Snapshot() == old(db.Snapshot()).(progress := old(db.progress)[key := Apply(before, req)]))
    ensures s.Fail? || TokenAccount(old(db.accounts), req.token).None? ==> db.Snapshot() == old(db.Snapshot())
  {
    var built := BuildUpsert(req);
    if built.Err? {
      return Fail(built.error);
    }
    var a := TokenAccount(db.accounts, req.token);
    if a.None? {
      return Pass;
    }
    if req.token == "" {
      return Fail(Sql(NoDefault));
    }
    if req.cardId !in db.cards {
      return Fail(Sql(ForeignKey));
    }
    var key := (a.value, req.cardId);
    var before := if key in db.progress then db.progress[key] else DefaultProgress;
    UpsertConsistent(db.Snapshot(), key, Apply(before, req));
    db.progress := db.progress[key := Apply(before, req)];
    s := Pass;
  }
}
