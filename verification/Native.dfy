/**
 What `NativeCatalog::exec` computes from SQL text: the keyword scans of SELECT and
 INSERT, branch by branch, over tables that are lists of column maps.
 */
module Native {
  import opened Text

  type Row = map<string, string>
  type Tables = map<string, seq<Row>>

  datatype ExecResult = ExecResult(rows: seq<Row>, affected: nat)

  const NOTHING := ExecResult([], 0)

  // ---------------------------------------------------------------- shared scanners

  /** `trim_sql`: trim, then drop trailing semicolons, trimming after each. */
  function TrimSql(sql: string): (q: string)
    ensures Trimmed(q) && (q != "" ==> q[|q| - 1] != ';')
  {
    TrimIsTrimmed(sql);
    DropSemicolons(Trim(sql))
  }

  function DropSemicolons(s: string): (q: string)
    requires Trimmed(s)
    ensures Trimmed(q) && (q != "" ==> q[|q| - 1] != ';')
    decreases |s|
  {
    if s != "" && s[|s| - 1] == ';' then
      TrimIsTrimmed(s[..|s| - 1]);
      DropSemicolons(Trim(s[..|s| - 1]))
    else s
  }

  lemma {:induction false} TrimOfTrimmed(s: string)
    requires Trimmed(s)
    ensures Trim(s) == s
  {
  }

  lemma TrimSqlOfTrimmed(q: string)
    requires Trimmed(q) && (q != "" ==> q[|q| - 1] != ';')
    ensures TrimSql(q) == q
  {
    TrimOfTrimmed(q);
  }

  /** `split_top_level_commas` from a given state of its loop. */
  function SplitCommas(s: string, inQuote: bool, cur: string): seq<string>
    decreases |s|
  {
    if s == "" then (if cur == "" then [] else [Trim(cur)])
    else
      var quote := if s[0] == '\'' then !inQuote else inQuote;
      if !quote && s[0] == ',' then [Trim(cur)] + SplitCommas(s[1..], quote, "")
      else SplitCommas(s[1..], quote, cur + [s[0]])
  }

  /** The parenthesis loop: where it stops and the depth it stops at. */
  function ScanClose(s: string, i: nat, depth: nat): (r: (nat, nat))
    requires i <= |s|
    ensures i <= r.0 <= |s| && (depth > 0 && r.1 == 0 ==> i < r.0)
    decreases |s| - i
  {
    if i < |s| && depth > 0 then
      ScanClose(s, i + 1, if s[i] == '(' then depth + 1 else if s[i] == ')' then depth - 1 else depth)
    else (i, depth)
  }

  function UnquoteLiteral(lit: string): string {
    var s := Trim(lit);
    if |s| >= 2 && s[0] == '\'' && s[|s| - 1] == '\'' then s[1..|s| - 1]
    else if |s| >= 3 && (StartsWith(s, "x'") || StartsWith(s, "X'")) && s[|s| - 1] == '\'' then s[2..|s| - 1]
    else s
  }

  // ---------------------------------------------------------------- INSERT

  datatype InsertText = InsertText(table: string, columns: seq<string>, values: seq<string>)

  /** The scanning half of `exec_insert`; `None` where it gives up. */
  function ParseInsert(q: string): Option<InsertText> {
    var into := Find(Lower(q), "insert into ");
    if into.None? then None
    else
      var rest := q[into.value + 12..];
      var open := Find(rest, "(");
      if open.None? then None
      else
        var close := ScanClose(rest, open.value + 1, 1);
        if close.1 != 0 then None
        else
          var valuesAt := FindFrom(Lower(rest), " values ", close.0);
          if valuesAt.None? then None
          else
            var valOpen := FindFrom(rest, "(", valuesAt.value);
            if valOpen.None? then None
            else
              var valClose := ScanClose(rest, valOpen.value + 1, 1);
              if valClose.1 != 0 then None
              else
                Some(InsertText(Trim(rest[..open.value]),
                                SplitCommas(Trim(rest[open.value + 1..close.0 - 1]), false, ""),
                                SplitCommas(Trim(rest[valOpen.value + 1..valClose.0 - 1]), false, "")))
  }

  /** The binding loop: `?` takes the next parameter, a missing value is empty, too few parameters is `None`. */
  function BindRow(columns: seq<string>, values: seq<string>, params: seq<string>, i: nat, used: nat, row: Row): Option<Row>
    requires i <= |columns|
    decreases |columns| - i
  {
    if i == |columns| then Some(row)
    else if i < |values| && Trim(values[i]) == "?" then
      if used >= |params| then None
      else BindRow(columns, values, params, i + 1, used + 1, row[columns[i] := params[used]])
    else
      BindRow(columns, values, params, i + 1, used,
              row[columns[i] := if i < |values| then UnquoteLiteral(values[i]) else ""])
  }

  /** The table and row that `exec_insert` appends, if it gets that far. */
  function InsertedRow(sql: string, params: seq<string>): Option<(string, Row)> {
    var p := ParseInsert(TrimSql(sql));
    if p.None? then None
    else
      var row := BindRow(p.value.columns, p.value.values, params, 0, 0, map[]);
      if row.None? then None else Some((p.value.table, row.value))
  }

  function RowsOf(tables: Tables, table: string): seq<Row> {
    if table in tables then tables[table] else []
  }

  /** `tables_[table]`: looking a table up creates it. */
  function Touch(tables: Tables, table: string): Tables {
    tables[table := RowsOf(tables, table)]
  }

  function Append(tables: Tables, table: string, row: Row): Tables {
    tables[table := RowsOf(tables, table) + [row]]
  }

  // ---------------------------------------------------------------- SELECT

  datatype Filter = Everything | Equals(column: string, value: string) | Unbound

  function AfterLastDot(s: string): string {
    var dot := RFindChar(s, '.');
    if dot.Some? then s[dot.value + 1..] else s
  }

  /** The WHERE part of `exec_select`; `Unbound` when a `?` has no parameter. */
  function ParseWhere(q: string, params: seq<string>): Filter {
    var at := Find(Lower(q), " where ");
    if at.None? then Everything
    else
      var whole := Trim(q[at.value + 7..]);
      var limit := Find(Lower(whole), " limit ");
      var clause := if limit.Some? then Trim(whole[..limit.value]) else whole;
      var eq := Find(clause, "=");
      if eq.None? then Everything
      else
        var rhs := Trim(clause[eq.value + 1..]);
        if rhs != "" && rhs[0] == '?' && params == [] then Unbound
        else
          Equals(AfterLastDot(Trim(clause[..eq.value])),
                 if rhs != "" && rhs[0] == '?' then params[0] else UnquoteLiteral(rhs))
  }

  /** The text after the first ` as `, when there is one. */
  function Alias(s: string): Option<string> {
    var at := Find(Lower(s), " as ");
    if at.Some? then Some(Trim(s[at.value + 4..])) else None
  }

  /** One item of the select list, as a lower-case column name. */
  function SelectColumn(part: string): string {
    var p := Trim(part);
    Lower(Trim(AfterLastDot(if Alias(p).Some? then Alias(p).value else p)))
  }

  function SelectColumns(parts: seq<string>): (r: seq<string>)
    ensures |r| == |parts| && forall i :: 0 <= i < |parts| ==> r[i] == SelectColumn(parts[i])
  {
    seq(|parts|, i requires 0 <= i < |parts| => SelectColumn(parts[i]))
  }

  function SelectTable(q: string, from: nat): string
    requires from + 6 <= |q|
  {
    var t := Trim(q[from + 6..]);
    var sp := Find(t, " ");
    if sp.Some? then t[..sp.value] else t
  }

  /** `q.substr(7, from - 7)`: the rest of the text when `from` is 6 and the count wraps around. */
  function SelectList(q: string, from: nat): string
    requires 6 <= from && from + 6 <= |q|
  {
    Trim(if from < 7 then q[7..] else q[7..from])
  }

  /** `None` selects every column. */
  type Projection = Option<seq<string>>

  function ProjectRow(row: Row, columns: Projection): Row {
    if columns.None? then row else map k | k in row && Lower(k) in columns.value :: row[k]
  }

  predicate Matches(row: Row, f: Filter) {
    f.Equals? ==> f.column in row && row[f.column] == f.value
  }

  /** The row loop: matching rows in order, projected, those left without columns dropped. */
  function FilterProject(rows: seq<Row>, f: Filter, columns: Projection): seq<Row> {
    if rows == [] then []
    else
      var n := |rows| - 1;
      var kept := ProjectRow(rows[n], columns);
      FilterProject(rows[..n], f, columns) + (if Matches(rows[n], f) && kept != map[] then [kept] else [])
  }

  datatype Outcome = Outcome(result: ExecResult, tables: Tables)

  function SelectOne(q: string): ExecResult {
    var alias := Alias(q);
    ExecResult([map[(if alias.Some? then alias.value else "ok") := "1"]], 0)
  }

  /** `exec_select`, on text that starts with `select`. */
  function ExecSelect(tables: Tables, sql: string, params: seq<string>): Outcome
    requires StartsWith(Lower(TrimSql(sql)), "select")
  {
    var q := TrimSql(sql);
    if StartsWith(Lower(q), "select 1") then Outcome(SelectOne(q), tables)
    else
      var from := Find(Lower(q), " from ");
      if from.None? then Outcome(NOTHING, tables)
      else
        FromAfterSelect(q, from.value);
        var table := SelectTable(q, from.value);
        var filter := ParseWhere(q, params);
        if filter.Unbound? then Outcome(NOTHING, tables)
        else
          var rows := RowsOf(tables, table);
          var list := SelectList(q, from.value);
          if Find(Lower(q), "count(*)").Some? then
            var key := if Alias(list).Some? then Alias(list).value else "count(*)";
            Outcome(ExecResult([map[key := Decimal(|rows|)]], 0), Touch(tables, table))
          else
            var columns := if list == "*" then None else Some(SelectColumns(SplitCommas(list, false, "")));
            Outcome(ExecResult(FilterProject(rows, filter, columns), 0), Touch(tables, table))
  }

  lemma FromAfterSelect(q: string, from: nat)
    requires StartsWith(Lower(q), "select") && At(Lower(q), " from ", from)
    ensures 6 <= from && from + 6 <= |q|
  {
    var lq := Lower(q);
    assert lq[from] == lq[from..from + 6][0] == ' ';
    assert lq[..6] == "select";
    assert forall i :: 0 <= i < 6 ==> lq[..6][i] != ' ' && lq[..6][i] == lq[i];
  }

  /** `exec`: dispatch on the first word; anything but SELECT and INSERT does nothing. */
  function Exec(tables: Tables, sql: string, params: seq<string>, writable: bool): Outcome {
    var q := TrimSql(sql);
    TrimSqlOfTrimmed(q);
    if StartsWith(Lower(q), "select") then ExecSelect(tables, q, params)
    else if StartsWith(Lower(q), "insert") then
      var row := InsertedRow(q, params);
      if row.None? then Outcome(NOTHING, tables)
      else Outcome(ExecResult([], if writable then 1 else 0), Append(tables, row.value.0, row.value.1))
    else Outcome(NOTHING, tables)
  }
}
