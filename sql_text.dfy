/** The text of the generated UPDATE statements: a head such as
    `UPDATE DECK SET`, then one ` column = ?` clause per present field with a
    comma between consecutive clauses, and an argument list with one value
    per placeholder. */
module SqlText {
  import opened Outcome
  import opened Schema

  /** How many times `c` occurs in `s`. */
  function CountChar(c: char, s: string): nat
  {
    if s == [] then 0 else (if s[0] == c then 1 else 0) + CountChar(c, s[1..])
  }

  lemma {:induction false} CountConcat(c: char, a: string, b: string)
    ensures CountChar(c, a + b) == CountChar(c, a) + CountChar(c, b)
  {
    if a == [] {
      assert a + b == b;
    } else {
      assert (a + b)[1..] == a[1..] + b;
      CountConcat(c, a[1..], b);
    }
  }

  lemma {:induction false} CountAbsent(c: char, s: string)
    requires c !in s
    ensures CountChar(c, s) == 0
  {
    if s != [] {
      assert s[0] != c;
      assert forall i :: 0 <= i < |s[1..]| ==> s[1..][i] == s[i + 1];
      CountAbsent(c, s[1..]);
    }
  }

  /** A column name as the repositories write it: non-empty and free of the
      two characters whose count the properties below are about. */
  predicate ColumnName(n: string) {
    n != [] && '?' !in n && ',' !in n
  }

  /** The items with `sep` between consecutive ones. */
  function Join(sep: string, items: seq<string>): string
  {
    if |items| == 0 then ""
    else if |items| == 1 then items[0]
    else Join(sep, items[..|items| - 1]) + sep + items[|items| - 1]
  }

  /** Appending an item to a joined list writes the separator first unless
      the list was empty. */
  lemma JoinSnoc(sep: string, items: seq<string>, x: string)
    ensures Join(sep, items + [x]) == if items == [] then x else Join(sep, items) + sep + x
  {
    assert (items + [x])[..|items|] == items;
  }

  /** A joined list ends with its last item. */
  lemma {:induction false} JoinEndsWithLast(sep: string, items: seq<string>)
    requires items != []
    ensures |Join(sep, items)| >= |items[|items| - 1]|
  {
  }

  /** A character that occurs neither in the separator nor in any item does
      not occur in the joined text. */
  lemma {:induction false} JoinAbsent(c: char, sep: string, items: seq<string>)
    requires c !in sep
    requires forall i :: 0 <= i < |items| ==> c !in items[i]
    ensures c !in Join(sep, items)
  {
    if |items| > 1 {
      JoinAbsent(c, sep, items[..|items| - 1]);
    }
  }

  /** Joining with commas items that hold no comma gives one comma fewer
      than there are items. */
  lemma {:induction false} JoinCommas(items: seq<string>)
    requires forall i :: 0 <= i < |items| ==> ',' !in items[i]
    ensures CountChar(',', Join(",", items)) == if items == [] then 0 else |items| - 1
  {
    if |items| == 1 {
      CountAbsent(',', items[0]);
    } else if |items| > 1 {
      var init := items[..|items| - 1];
      JoinCommas(init);
      CountAbsent(',', items[|items| - 1]);
      CountConcat(',', Join(",", init) + ",", items[|items| - 1]);
      CountConcat(',', Join(",", init), ",");
    }
  }

  /** The clause ` name = ?`. */
  function SetClause(name: string): string {
    " " + name + " = ?"
  }

  /** The clauses of the given columns, in order. */
  function SetList(names: seq<string>): (r: seq<string>)
    ensures |r| == |names|
  {
    if names == [] then [] else SetList(names[..|names| - 1]) + [SetClause(names[|names| - 1])]
  }

  lemma SetListSnoc(names: seq<string>, n: string)
    ensures SetList(names + [n]) == SetList(names) + [SetClause(n)]
  {
    assert (names + [n])[..|names|] == names;
  }

  /** The statement text up to the WHERE clause. */
  function RenderSet(head: string, names: seq<string>): string {
    head + Join(",", SetList(names))
  }

  /** Adding one more column extends the text by a comma (only when there
      was already a clause) and the new clause. */
  lemma RenderSetSnoc(head: string, names: seq<string>, n: string)
    ensures RenderSet(head, names + [n])
         == RenderSet(head, names) + (if names == [] then "" else ",") + SetClause(n)
  {
    SetListSnoc(names, n);
    JoinSnoc(",", SetList(names), SetClause(n));
  }

  /** The text equals its head exactly when no column has been added: the
      test the builders use to decide whether a comma is due. */
  lemma {:induction false} RenderSetIsHeadOnlyWhenEmpty(head: string, names: seq<string>)
    ensures |RenderSet(head, names)| >= |head|
    ensures names != [] ==> |RenderSet(head, names)| > |head|
  {
    if names != [] {
      var init := names[..|names| - 1];
      assert names == init + [names[|names| - 1]];
      RenderSetIsHeadOnlyWhenEmpty(head, init);
      RenderSetSnoc(head, init, names[|names| - 1]);
    }
  }

  /** A clause ` name = ?` carries one placeholder. */
  lemma ClausePlaceholder(n: string)
    requires ColumnName(n)
    ensures CountChar('?', SetClause(n)) == 1
  {
    CountAbsent('?', " " + n + " = ");
    assert SetClause(n) == (" " + n + " = ") + "?";
    CountConcat('?', " " + n + " = ", "?");
  }

  /** Every clause carries exactly one placeholder and the separator none,
      so a list of k clauses has k placeholders. */
  lemma {:induction false} SetListPlaceholders(sep: string, names: seq<string>)
    requires '?' !in sep
    requires forall n :: n in names ==> ColumnName(n)
    ensures CountChar('?', Join(sep, SetList(names))) == |names|
  {
    if names != [] {
      var init, n := names[..|names| - 1], names[|names| - 1];
      assert names == init + [n];
      assert n in names;
      SetListPlaceholders(sep, init);
      SetListSnoc(init, n);
      JoinSnoc(sep, SetList(init), SetClause(n));
      ClausePlaceholder(n);
      if init == [] {
        assert Join(sep, SetList(names)) == SetClause(n);
      } else {
        CountConcat('?', Join(sep, SetList(init)) + sep, SetClause(n));
        CountConcat('?', Join(sep, SetList(init)), sep);
        CountAbsent('?', sep);
      }
    }
  }

  /** Commas appear only between clauses: a SET list of k > 0 columns has
      k - 1 commas. */
  lemma {:induction false} SetListCommas(names: seq<string>)
    requires forall n :: n in names ==> ColumnName(n)
    ensures CountChar(',', Join(",", SetList(names))) == if names == [] then 0 else |names| - 1
  {
    if names != [] {
      var init, n := names[..|names| - 1], names[|names| - 1];
      assert names == init + [n];
      assert n in names;
      SetListCommas(init);
      SetListSnoc(init, n);
      JoinSnoc(",", SetList(init), SetClause(n));
      CountAbsent(',', SetClause(n));
      if init != [] {
        CountConcat(',', Join(",", SetList(init)) + ",", SetClause(n));
        CountConcat(',', Join(",", SetList(init)), ",");
      }
    }
  }

  /** A finished UPDATE statement `head SET-list where` has one placeholder
      per column plus those of its WHERE clause. */
  lemma StatementPlaceholders(head: string, names: seq<string>, where: string)
    requires '?' !in head
    requires forall n :: n in names ==> ColumnName(n)
    ensures CountChar('?', RenderSet(head, names) + where) == |names| + CountChar('?', where)
  {
    CountConcat('?', RenderSet(head, names), where);
    CountConcat('?', head, Join(",", SetList(names)));
    CountAbsent('?', head);
    SetListPlaceholders(",", names);
  }

  /** ` WHERE k1 = ? AND k2 = ? ...`: one equality per key column. */
  function Where(keys: seq<string>): string {
    " WHERE" + Join(" AND", SetList(keys))
  }

  lemma WherePlaceholders(keys: seq<string>)
    requires forall k :: k in keys ==> ColumnName(k)
    ensures CountChar('?', Where(keys)) == |keys|
  {
    CountConcat('?', " WHERE", Join(" AND", SetList(keys)));
    CountAbsent('?', " WHERE");
    SetListPlaceholders(" AND", keys);
  }

  /** A column assignment of a SET list: the column and the value bound to
      its placeholder. */
  type Assignment = (string, Value)

  /** The columns of a list of assignments, in order. */
  function Names(sets: seq<Assignment>): (r: seq<string>)
    ensures |r| == |sets| && forall i :: 0 <= i < |sets| ==> r[i] == sets[i].0
  {
    seq(|sets|, i requires 0 <= i < |sets| => sets[i].0)
  }

  /** The bound values of a list of assignments, in order. */
  function Values(sets: seq<Assignment>): (r: seq<Value>)
    ensures |r| == |sets| && forall i :: 0 <= i < |sets| ==> r[i] == sets[i].1
  {
    seq(|sets|, i requires 0 <= i < |sets| => sets[i].1)
  }

  lemma NamesAppend(a: seq<Assignment>, b: seq<Assignment>)
    ensures Names(a + b) == Names(a) + Names(b)
    ensures Values(a + b) == Values(a) + Values(b)
  {
  }

  predicate ColumnNames(sets: seq<Assignment>) {
    forall i :: 0 <= i < |sets| ==> ColumnName(sets[i].0)
  }

  lemma AssignmentSnoc(sets: seq<Assignment>, field: string, arg: Value)
    ensures Names(sets + [(field, arg)]) == Names(sets) + [field]
    ensures Values(sets + [(field, arg)]) == Values(sets) + [arg]
    ensures ColumnNames(sets) && ColumnName(field) ==> ColumnNames(sets + [(field, arg)])
  {
    assert Names(sets + [(field, arg)]) == Names(sets) + [field];
    assert Values(sets + [(field, arg)]) == Values(sets) + [arg];
  }

  /** The complete text of `head SET-list WHERE keys`. It has one
      placeholder per assignment and one per key column. */
  function Statement(head: string, sets: seq<Assignment>, keys: seq<string>): (r: string)
    requires '?' !in head && ColumnNames(sets)
    requires forall k :: k in keys ==> ColumnName(k)
    ensures CountChar('?', r) == |sets| + |keys|
  {
    var names := Names(sets);
    assert forall n :: n in names ==> ColumnName(n);
    StatementPlaceholders(head, names, Where(keys));
    WherePlaceholders(keys);
    RenderSet(head, names) + Where(keys)
  }

  /** A value handed to a field builder. An empty string, the zero time and
      a nil `*bool` stand for "not supplied". */
  datatype Field = TextField(s: string) | TimeField(t: Time) | FlagField(b: Option<bool>)

  predicate Absent(v: Field) {
    match v
    case TextField(s) => s == ""
    case TimeField(t) => t == ZeroTime
    case FlagField(b) => b.None?
  }

  /** The argument bound for a supplied field (a `*bool` is dereferenced by
      the driver). */
  function Bound(v: Field): Value
    requires !Absent(v)
  {
    match v
    case TextField(s) => Text(s)
    case TimeField(t) => Moment(t)
    case FlagField(b) => Flag(b.value)
  }

  /** The assignment a builder writes for one field: none when the field is
      absent. */
  function Present(column: string, v: Field): seq<Assignment> {
    if Absent(v) then [] else [(column, Bound(v))]
  }

  /** The finished statement is the bare `head where` exactly when no field
      was supplied: the case in which MySQL rejects the statement. */
  lemma BareStatement(head: string, sets: seq<Assignment>, keys: seq<string>)
    requires '?' !in head && ColumnNames(sets)
    requires forall k :: k in keys ==> ColumnName(k)
    ensures Statement(head, sets, keys) == head + Where(keys) <==> sets == []
  {
    RenderSetIsHeadOnlyWhenEmpty(head, Names(sets));
    if sets == [] {
      assert Names(sets) == [];
      assert RenderSet(head, Names(sets)) == head;
    } else {
      assert |Statement(head, sets, keys)| > |head + Where(keys)|;
    }
  }

  lemma NamesPresent(column: string, v: Field)
    ensures Names(Present(column, v)) == if Absent(v) then [] else [column]
  {
    if !Absent(v) {
      assert Names(Present(column, v))[0] == column;
    }
  }

  /** An UPDATE statement under construction: the text so far (Go's
      `strings.Builder`) and the argument slice, with the assignments written
      so far as ghost state. */
  class UpdateQuery {
    const head: string
    var query: string
    var args: seq<Value>
    ghost var sets: seq<Assignment>

    ghost predicate Valid()
      reads this
    {
      && query == RenderSet(head, Names(sets))
      && args == Values(sets)
      && ColumnNames(sets)
    }

    constructor (head: string)
      ensures Valid() && this.head == head
      ensures query == head && args == [] && sets == []
    {
      this.head := head;
      query := head;
      args := [];
      sets := [];
      assert Names([]) == [];
    }

    /** The text starts with the head and is longer than it once an
        assignment has been written. */
    lemma HeadPrefix()
      requires Valid()
      ensures |query| >= |head| && query[..|head|] == head
      ensures sets != [] ==> |query| > |head|
    {
      RenderSetIsHeadOnlyWhenEmpty(head, Names(sets));
    }

    /** Writes ` field = ?`, preceded by a comma when `needsComma`, and
        appends the argument. The builders decide `needsComma` by comparing
        the text with the head; `HeadPrefix` is why that comparison is
        right. */
    method Append(needsComma: bool, field: string, arg: Value)
      requires Valid() && ColumnName(field)
      requires needsComma <==> sets != []
      modifies this
      ensures Valid()
      ensures sets == old(sets) + [(field, arg)]
    {
      AssignmentSnoc(sets, field, arg);
      RenderSetSnoc(head, Names(sets), field);
      var separator := if needsComma then "," else "";
      query := query + separator + SetClause(field);
      args := args + [arg];
      sets := sets + [(field, arg)];
    }

    /** Appends the WHERE clause and the key values; the text is then the
        whole statement. */
    method Finish(keys: seq<string>, keyArgs: seq<Value>)
      requires Valid() && '?' !in head
      requires forall k :: k in keys ==> ColumnName(k)
      modifies this
      ensures sets == old(sets) && ColumnNames(sets)
      ensures query == Statement(head, sets, keys)
      ensures CountChar('?', query) == |sets| + |keys|
      ensures args == Values(sets) + keyArgs
    {
      query := query + Where(keys);
      args := args + keyArgs;
    }
  }
}
