/**
 * The SQL-text helpers of the mapper (`stringJoin`, `joinColumns`,
 * `generatePlaceholders`, `generateUpdateSetQuery`) and the statement texts
 * the query client issues.
 */
module SqlText {
  import opened Strs

  /** `stringJoin`: accumulates the items left to right, putting `separator` before every item but the first. */
  method StringJoin(items: seq<string>, separator: string) returns (result: string)
    ensures result == Join(items, separator)
  {
    if |items| == 0 {
      return "";
    }
    result := "";
    for i := 0 to |items|
      invariant result == Join(items[..i], separator)
    {
      if i > 0 {
        result := result + separator;
      }
      result := result + items[i];
      assert items[..i + 1][..i] == items[..i];
    }
    assert items[..|items|] == items;
  }

  /** A column name in backticks. */
  function Quote(name: string): string {
    "`" + name + "`"
  }

  /** `joinColumns`: the names in backticks, separated by a comma and a space. */
  function JoinColumns(columns: seq<string>): (r: string)
    ensures |r| >= 2 && r[0] == '`' && r[|r| - 1] == '`'
  {
    "`" + Join(columns, "`, `") + "`"
  }

  /** Every column name occurs in `joinColumns`' output. */
  lemma JoinColumnsContains(columns: seq<string>, k: nat)
    requires k < |columns|
    ensures Contains(JoinColumns(columns), columns[k])
  {
    JoinContainsItem(columns, "`, `", k);
    ContainsExtend("`", Join(columns, "`, `"), "`", columns[k]);
  }

  /** For a non-empty list, `joinColumns` is the quoted names joined by ", "; the empty list gives "``", not "". */
  lemma {:induction false} JoinColumnsQuoted(columns: seq<string>)
    ensures |columns| > 0 ==> JoinColumns(columns) == Join(seq(|columns|, i requires 0 <= i < |columns| => Quote(columns[i])), ", ")
    ensures |columns| == 0 ==> JoinColumns(columns) == "``"
    decreases |columns|
  {
    var n := |columns|;
    var quoted := seq(n, i requires 0 <= i < n => Quote(columns[i]));
    if n > 1 {
      var pre := columns[..n - 1];
      JoinColumnsQuoted(pre);
      assert quoted[..n - 1] == seq(n - 1, i requires 0 <= i < n - 1 => Quote(pre[i]));
      calc {
        JoinColumns(columns);
        "`" + Join(pre, "`, `") + "`, `" + columns[n - 1] + "`";
        ("`" + Join(pre, "`, `") + "`") + ", " + Quote(columns[n - 1]);
        Join(quoted[..n - 1], ", ") + ", " + quoted[n - 1];
      }
    }
  }

  /** `n` question marks. */
  function Marks(n: nat): seq<string> {
    seq(n, _ => "?")
  }

  /** The text `generatePlaceholders(n)` returns: `n` marks joined by ", " in parentheses. */
  function Placeholders(n: nat): string {
    "(" + Join(Marks(n), ", ") + ")"
  }

  /** `generatePlaceholders`: fills an array of `count` marks, then joins it. */
  method GeneratePlaceholders(count: nat) returns (r: string)
    ensures r == Placeholders(count)
  {
    var placeholders := new string[count];
    for i := 0 to count
      invariant forall k :: 0 <= k < i ==> placeholders[k] == "?"
    {
      placeholders[i] := "?";
    }
    assert placeholders[..] == Marks(count);
    var joined := StringJoin(placeholders[..], ", ");
    r := "(" + joined + ")";
  }

  /** The n marks joined by ", " hold n question marks and n - 1 commas, in 3n - 2 characters. */
  lemma {:induction false} MarksJoinCounts(n: nat)
    requires n > 0
    ensures CountChar(Join(Marks(n), ", "), '?') == n
    ensures CountChar(Join(Marks(n), ", "), ',') == n - 1
    ensures |Join(Marks(n), ", ")| == 3 * n - 2
  {
    if n > 1 {
      MarksJoinCounts(n - 1);
      var pre := Join(Marks(n - 1), ", ");
      assert Marks(n)[..n - 1] == Marks(n - 1);
      assert Join(Marks(n), ", ") == pre + ", " + "?";
      CountCharAppend(pre + ", ", "?", '?');
      CountCharAppend(pre, ", ", '?');
      CountCharAppend(pre + ", ", "?", ',');
      CountCharAppend(pre, ", ", ',');
    }
  }

  /** `generatePlaceholders(n)` holds exactly n "?" and n - 1 ", " separators; n = 0 gives "()". */
  lemma PlaceholdersCounts(n: nat)
    ensures n == 0 ==> Placeholders(n) == "()"
    ensures CountChar(Placeholders(n), '?') == n
    ensures CountChar(Placeholders(n), ',') == if n == 0 then 0 else n - 1
    ensures |Placeholders(n)| == if n == 0 then 2 else 3 * n
  {
    var body := Join(Marks(n), ", ");
    CountCharAppend("(" + body, ")", '?');
    CountCharAppend("(", body, '?');
    CountCharAppend("(" + body, ")", ',');
    CountCharAppend("(", body, ',');
    if n > 0 {
      MarksJoinCounts(n);
    }
  }

  /** One assignment of an UPDATE's SET list. */
  function Assignment(column: string): string {
    "`" + column + "` = ?"
  }

  lemma AssignmentMarks(column: string)
    requires '?' !in column
    ensures CountChar(Assignment(column), '?') == 1
  {
    assert Assignment(column) == "`" + column + "` = " + "?";
    CountCharAbsent(column, '?');
    CountCharAbsent("`", '?');
    CountCharAbsent("` = ", '?');
    CountCharAppend("`", column, '?');
    CountCharAppend("`" + column, "` = ", '?');
    CountCharAppend("`" + column + "` = ", "?", '?');
  }

  /** The text `generateUpdateSetQuery` returns. */
  function UpdateSet(columns: seq<string>): string {
    Join(seq(|columns|, i requires 0 <= i < |columns| => Assignment(columns[i])), ", ")
  }

  /** `generateUpdateSetQuery`: appends one assignment per column, then joins them. */
  method GenerateUpdateSetQuery(columns: seq<string>) returns (r: string)
    ensures r == UpdateSet(columns)
  {
    var parts: seq<string> := [];
    for i := 0 to |columns|
      invariant parts == seq(i, k requires 0 <= k < i => Assignment(columns[k]))
    {
      parts := parts + [Assignment(columns[i])];
    }
    r := StringJoin(parts, ", ");
  }

  /** No identifier holds a '?', so the only marks in a statement are its placeholders. */
  ghost predicate MarkFree(names: seq<string>) {
    forall k :: 0 <= k < |names| ==> '?' !in names[k]
  }

  /** The SET list has one "?" per column, in column order, and is "" for no columns. */
  lemma {:induction false} UpdateSetCounts(columns: seq<string>)
    requires MarkFree(columns)
    ensures columns == [] ==> UpdateSet(columns) == ""
    ensures CountChar(UpdateSet(columns), '?') == |columns|
    decreases |columns|
  {
    var n := |columns|;
    if n > 0 {
      var pre := columns[..n - 1];
      var parts := seq(n, i requires 0 <= i < n => Assignment(columns[i]));
      assert parts[..n - 1] == seq(n - 1, i requires 0 <= i < n - 1 => Assignment(pre[i]));
      AssignmentMarks(columns[n - 1]);
      if n == 1 {
        assert UpdateSet(columns) == Assignment(columns[0]);
      } else {
        UpdateSetCounts(pre);
        assert UpdateSet(columns) == UpdateSet(pre) + ", " + Assignment(columns[n - 1]);
        CountCharAppend(UpdateSet(pre) + ", ", Assignment(columns[n - 1]), '?');
        CountCharAppend(UpdateSet(pre), ", ", '?');
        CountCharAbsent(", ", '?');
      }
    }
  }

  /** The statement `Find` issues. */
  function FindSql(table: string): string {
    "SELECT * FROM `" + table + "` WHERE id = ?"
  }

  /** The statement `All` issues. */
  function AllSql(table: string): string {
    "SELECT * FROM `" + table + "`"
  }

  /** The statement `Create` issues. */
  function InsertSql(table: string, columns: seq<string>): string {
    "INSERT INTO `" + table + "` (" + JoinColumns(columns) + ") VALUES " + Placeholders(|columns|)
  }

  /** The statement `Update` issues. */
  function UpdateSql(table: string, columns: seq<string>): string {
    "UPDATE `" + table + "` SET " + UpdateSet(columns) + " WHERE id = ?"
  }

  /** The statement `Delete` issues. */
  function DeleteSql(table: string): string {
    "DELETE FROM `" + table + "` WHERE id = ?"
  }

  /** Single-row statements by id hold exactly one placeholder, for the id. */
  lemma ByIdMarks(table: string)
    requires '?' !in table
    ensures CountChar(FindSql(table), '?') == 1
    ensures CountChar(DeleteSql(table), '?') == 1
  {
    CountCharAbsent(table, '?');
    CountCharAbsent("SELECT * FROM `", '?');
    CountCharAbsent("DELETE FROM `", '?');
    CountCharAbsent("` WHERE id = ", '?');
    assert FindSql(table) == "SELECT * FROM `" + table + "` WHERE id = " + "?";
    assert DeleteSql(table) == "DELETE FROM `" + table + "` WHERE id = " + "?";
    CountCharAppend("SELECT * FROM `", table, '?');
    CountCharAppend("SELECT * FROM `" + table, "` WHERE id = ", '?');
    CountCharAppend("SELECT * FROM `" + table + "` WHERE id = ", "?", '?');
    CountCharAppend("DELETE FROM `", table, '?');
    CountCharAppend("DELETE FROM `" + table, "` WHERE id = ", '?');
    CountCharAppend("DELETE FROM `" + table + "` WHERE id = ", "?", '?');
  }

  /** INSERT holds one placeholder per column. */
  lemma InsertMarks(table: string, columns: seq<string>)
    requires '?' !in table && MarkFree(columns)
    ensures CountChar(InsertSql(table, columns), '?') == |columns|
  {
    CountCharAbsent(table, '?');
    var inner := Join(columns, "`, `");
    JoinMarkFree(columns, "`, `");
    CountCharAbsent(inner, '?');
    CountCharAppend("`", inner, '?');
    CountCharAppend("`" + inner, "`", '?');
    PlaceholdersCounts(|columns|);
    CountCharAbsent("`", '?');
    CountCharAbsent("INSERT INTO `", '?');
    CountCharAbsent("` (", '?');
    CountCharAbsent(") VALUES ", '?');
    var a := "INSERT INTO `" + table;
    CountCharAppend("INSERT INTO `", table, '?');
    CountCharAppend(a, "` (", '?');
    CountCharAppend(a + "` (", JoinColumns(columns), '?');
    CountCharAppend(a + "` (" + JoinColumns(columns), ") VALUES ", '?');
    CountCharAppend(a + "` (" + JoinColumns(columns) + ") VALUES ", Placeholders(|columns|), '?');
  }

  /** UPDATE holds one placeholder per column and one more, for the id. */
  lemma UpdateMarks(table: string, columns: seq<string>)
    requires '?' !in table && MarkFree(columns)
    ensures CountChar(UpdateSql(table, columns), '?') == |columns| + 1
  {
    CountCharAbsent(table, '?');
    UpdateSetCounts(columns);
    CountCharAbsent("UPDATE `", '?');
    CountCharAbsent("` SET ", '?');
    CountCharAbsent(" WHERE id = ", '?');
    var a := "UPDATE `" + table;
    var b := a + "` SET " + UpdateSet(columns);
    assert UpdateSql(table, columns) == b + " WHERE id = " + "?";
    CountCharAppend("UPDATE `", table, '?');
    CountCharAppend(a, "` SET ", '?');
    CountCharAppend(a + "` SET ", UpdateSet(columns), '?');
    CountCharAppend(b, " WHERE id = ", '?');
    CountCharAppend(b + " WHERE id = ", "?", '?');
  }

  /** Joining names that hold no '?' with a separator that holds none gives a string without '?'. */
  lemma {:induction false} JoinMarkFree(items: seq<string>, sep: string)
    requires MarkFree(items) && '?' !in sep
    ensures '?' !in Join(items, sep)
    decreases |items|
  {
    if |items| > 1 {
      JoinMarkFree(items[..|items| - 1], sep);
    }
  }
}
