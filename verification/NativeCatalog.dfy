/**
 `NativeCatalog`, method by method: the scanning loops and the state they change, each
 proved against the functions of `Native` and `Snapshot`.
 */
module NativeEngine {
  import opened Text
  import opened Native
  import opened Snapshot
  import opened StdMap

  /** The snapshot file; `writable` is whether an `ofstream` on its path opens. */
  class File {
    var content: Option<string>
    var writable: bool

    constructor (content: Option<string>, writable: bool)
      ensures this.content == content && this.writable == writable
    {
      this.content := content;
      this.writable := writable;
    }
  }

  // ---------------------------------------------------------------- scanning loops

  method SplitTopLevelCommas(s: string) returns (out: seq<string>)
    ensures out == SplitCommas(s, false, "")
  {
    out := [];
    var cur := "";
    var inQuote := false;
    for i := 0 to |s|
      invariant out + SplitCommas(s[i..], inQuote, cur) == SplitCommas(s, false, "")
    {
      assert s[i..][0] == s[i] && s[i..][1..] == s[i + 1..];
      if s[i] == '\'' {
        inQuote := !inQuote;
      }
      if !inQuote && s[i] == ',' {
        Assoc3(out, [Trim(cur)], SplitCommas(s[i + 1..], inQuote, ""));
        out := out + [Trim(cur)];
        cur := "";
      } else {
        cur := cur + [s[i]];
      }
    }
    if cur != "" {
      out := out + [Trim(cur)];
    }
  }

  /** `trim_sql`. */
  method TrimStatement(sql: string) returns (s: string)
    ensures s == TrimSql(sql)
  {
    s := TrimView(sql);
    TrimIsTrimmed(sql);
    while s != "" && s[|s| - 1] == ';'
      invariant Trimmed(s) && DropSemicolons(s) == TrimSql(sql)
      decreases |s|
    {
      TrimIsTrimmed(s[..|s| - 1]);
      TrimIsTrimmed(s[..|s| - 1]);
      s := TrimView(s[..|s| - 1]);
    }
  }

  method SplitCsv(s: string) returns (out: seq<string>)
    ensures out == SplitBars(s, "")
  {
    out := [];
    var cur := "";
    for i := 0 to |s|
      invariant out + SplitBars(s[i..], cur) == SplitBars(s, "")
    {
      assert s[i..][0] == s[i] && s[i..][1..] == s[i + 1..];
      if s[i] == '|' {
        Assoc3(out, [cur], SplitBars(s[i + 1..], ""));
        out := out + [cur];
        cur := "";
      } else {
        cur := cur + [s[i]];
      }
    }
    out := out + [cur];
  }

  /** The parenthesis loops of `exec_insert`: from behind an open parenthesis to behind its partner. */
  method SkipParens(rest: string, start: nat) returns (close: nat, depth: nat)
    requires start <= |rest|
    ensures (close, depth) == ScanClose(rest, start, 1)
  {
    close, depth := start, 1;
    while close < |rest| && depth > 0
      invariant start <= close <= |rest|
      invariant ScanClose(rest, close, depth) == ScanClose(rest, start, 1)
      decreases |rest| - close
    {
      if rest[close] == '(' {
        depth := depth + 1;
      } else if rest[close] == ')' {
        depth := depth - 1;
      }
      close := close + 1;
    }
  }

  method ParseFields(line: string) returns (row: Row)
    ensures row == ParseRow(line)
  {
    row := map[];
    var fields := SplitCsv(line);
    for i := 0 to |fields|
      invariant AddFields(row, fields[i..]) == ParseRow(line)
    {
      assert fields[i..][0] == fields[i] && fields[i..][1..] == fields[i + 1..];
      var eq := Find(fields[i], "=");
      if eq.Some? {
        row := row[fields[i][..eq.value] := fields[i][eq.value + 1..]];
      }
    }
  }

  /** The field loop of `save_snapshot` and `persist_row`. */
  method PrintRow(row: Row) returns (out: string)
    ensures out == RowText(row)
  {
    hide LexLeq, SortedKeys, Join;
    var keys := SortedKeys(row.Keys);
    assert forall i :: 0 <= i < |keys| ==> keys[i] in keys;
    ghost var fields := FieldTexts(row, keys);
    out := "";
    JoinEnds(fields);
    var first := true;
    for i := 0 to |keys|
      invariant first <==> i == 0
      invariant out == Join(fields[..i], "|")
    {
      assert fields[..i + 1] == fields[..i] + [fields[i]];
      JoinOne(fields[i]);
      assert i == 0 ==> fields[..i + 1] == [fields[i]];
      if i > 0 {
        JoinConcat(fields[..i], [fields[i]], "|");
        out := out + "|";
      }
      first := false;
      out := out + (keys[i] + ("=" + row[keys[i]]));
    }
    assert fields[..|keys|] == fields;
  }

  lemma JoinEnds(fields: seq<string>)
    ensures Join(fields[..0], "|") == ""
  {
  }

  lemma JoinOne(field: string)
    ensures Join([field], "|") == field && "" + field == field
  {
  }

  /** The row loop of `save_snapshot`. */
  method PrintRows(rows: seq<Row>) returns (out: string)
    ensures out == Unlines(RowTexts(rows))
  {
    hide RowText, Unlines;
    out := "";
    NoLines(RowTexts(rows));
    for i := 0 to |rows|
      invariant out == Unlines(RowTexts(rows)[..i])
    {
      assert RowTexts(rows)[..i + 1] == RowTexts(rows)[..i] + [RowTexts(rows)[i]];
      UnlinesConcat(RowTexts(rows)[..i], [RowTexts(rows)[i]]);
      var line := PrintRow(rows[i]);
      OneLine(line);
      out := out + (line + "\n");
    }
    assert RowTexts(rows)[..|rows|] == RowTexts(rows);
  }

  lemma NoLines(lines: seq<string>)
    ensures Unlines(lines[..0]) == ""
  {
  }

  lemma OneLine(line: string)
    ensures Unlines([line]) == line + "\n"
  {
    assert [line][1..] == [];
    assert "\n" + "" == "\n";
  }

  lemma TableText(t: string, rows: seq<Row>)
    ensures Unlines(TableLines(t, rows)) == "@table:" + t + "\n" + Unlines(RowTexts(rows))
  {
    assert TableLines(t, rows)[0] == TABLE_MARK + t && TableLines(t, rows)[1..] == RowTexts(rows);
    Assoc3("@table:" + t, "\n", Unlines(RowTexts(rows)));
  }

  // ---------------------------------------------------------------- the class

  /** The tables that `apply_bootstrap_schema` creates. */
  function Bootstrap(): Tables {
    map["schema_migrations" := [map["version" := "001_registry", "checksum" := "native-n1"]],
        "publishers" := [], "packages" := [], "package_versions" := [], "agent_runs" := []]
  }

  lemma OtherFirstCharacter(s: string, p: string)
    requires s != "" && p != "" && s[0] != p[0]
    ensures !StartsWith(s, p)
  {
    assert |p| <= |s| ==> s[..|p|][0] == s[0];
  }

  lemma MigrationRowIsDurable(row: Row)
    requires row == map["version" := "001_registry", "checksum" := "native-n1"]
    ensures DurableRow(row)
  {
    hide LexLeq, StartsWith, CleanCell;
    MigrationCells();
    assert "version" in row.Keys;
    var k := Least(row.Keys);
    assert k == "version" || k == "checksum";
    OtherFirstCharacter(k, "#");
    OtherFirstCharacter(k, TABLE_MARK);
  }

  lemma MigrationCells()
    ensures CleanCell("version", "001_registry") && CleanCell("checksum", "native-n1")
  {
  }

  /** The catalog every engine starts from survives its own snapshot. */
  lemma BootstrapIsDurable()
    ensures Durable(Bootstrap())
  {
    hide LexLeq, DurableRow;
    var row: Row := map["version" := "001_registry", "checksum" := "native-n1"];
    MigrationRowIsDurable(row);
    forall t | t in Bootstrap()
      ensures '\n' !in t && t != ""
      ensures Bootstrap()[t] == [] || Bootstrap()[t] == [row]
    {
    }
  }

  /** The snapshot after a statement: rewritten by an insert that reaches the save. */
  function FileAfter(content: Option<string>, tables: Tables, sql: string, params: seq<string>): Option<string> {
    var r := Exec(tables, sql, params, true);
    if r.result.affected == 1 then Some(Save(r.tables)) else content
  }

  /** The columns of the row that the column loop has passed. */
  function Restrict(row: Row, keys: seq<string>): Row {
    map k | k in row && k in keys :: row[k]
  }

  lemma RestrictEnds(row: Row, keys: seq<string>, columns: Projection)
    requires forall k :: k in row ==> k in keys
    ensures ProjectRow(Restrict(row, keys[..0]), columns) == map[]
    ensures ProjectRow(Restrict(row, keys[..|keys|]), columns) == ProjectRow(row, columns)
  {
    assert Restrict(row, keys[..0]) == map[];
    assert keys[..|keys|] == keys && Restrict(row, keys) == row;
  }

  lemma ProjectStep(row: Row, done: seq<string>, k: string, columns: Projection)
    requires k in row && columns.Some?
    ensures
      ProjectRow(Restrict(row, done + [k]), columns) ==
      var before := ProjectRow(Restrict(row, done), columns);
      if Lower(k) in columns.value then before[k := row[k]] else before
  {
  }

  lemma BootstrapIsBuilt(row: Row)
    requires row == map["version" := "001_registry"]["checksum" := "native-n1"]
    ensures Append(map["schema_migrations" := []]["publishers" := []]["packages" := []]["package_versions" := []]["agent_runs" := []],
                   "schema_migrations", row) == Bootstrap()
  {
    assert [] + [row] == [row];
  }

  class NativeCatalog {
    const file: File
    var tables: Tables

    constructor (file: File)
      ensures this.file == file && tables == map[]
    {
      this.file := file;
      tables := map[];
    }

    method ReplaySnapshot() returns (ok: bool)
      modifies this`tables
      ensures tables == if file.content.None? then old(tables) else Replay(file.content.value)
      ensures ok <==> file.content.Some? && tables != map[]
    {
      if file.content.None? {
        return false;
      }
      var text := file.content.value;
      tables := map[];
      var rest, current := text, "";
      while rest != ""
        invariant ReadLines(Reader(tables, current), SplitLines(rest)).tables == Replay(text)
        decreases |rest|
      {
        var n := LineLength(rest);
        var line := rest[..n];
        ghost var reader := Reader(tables, current);
        ghost var more := if n < |rest| then SplitLines(rest[n + 1..]) else [];
        assert SplitLines(rest) == [line] + more && ([line] + more)[1..] == more;
        if line == "" || line[0] == '#' {
        } else if StartsWith(line, "@table:") {
          current := line[7..];
          tables := tables[current := []];
        } else if current != "" {
          var row := ParseFields(line);
          tables := Append(tables, current, row);
        }
        assert Reader(tables, current) == ReadLine(reader, line);
        rest := if n < |rest| then rest[n + 1..] else "";
      }
      ok := tables != map[];
    }

    method LoadOrCreate()
      modifies this`tables
      ensures tables == Load(file.content)
    {
      var ok := ReplaySnapshot();
      if !ok {
        tables := map[];
      }
    }

    method SaveSnapshot() returns (ok: bool)
      modifies file`content
      ensures ok == file.writable
      ensures file.content == if ok then Some(Save(tables)) else old(file.content)
    {
      if !file.writable {
        return false;
      }
      var out := "";
      var rest := tables;
      while rest != map[]
        invariant out + Unlines(Lines(rest)) == Save(tables)
        decreases |rest|
      {
        var t := Least(rest.Keys);
        UnlinesConcat(TableLines(t, rest[t]), Lines(rest - {t}));
        TableText(t, rest[t]);
        var rows := PrintRows(rest[t]);
        Assoc3(out, "@table:" + t + "\n" + rows, Unlines(Lines(rest - {t})));
        out := out + ("@table:" + t + "\n" + rows);
        rest := rest - {t};
      }
      assert out + "" == out;
      file.content := Some(out);
      ok := true;
    }

    /** Looking the table up to count its rows creates it, as `tables_[table]` does. */
    method PersistRow(table: string, row: Row) returns (ok: bool)
      modifies this`tables, file`content
      ensures ok == file.writable
      ensures tables == if ok then Touch(old(tables), table) else old(tables)
      ensures file.content ==
              if ok then Some(old(if file.content.Some? then file.content.value else "") +
                              Unlines(PersistLines(tables, table, row)))
              else old(file.content)
    {
      if !file.writable {
        return false;
      }
      var out := if file.content.Some? then file.content.value else "";
      tables := Touch(tables, table);
      ghost var header := if |tables[table]| == 1 then [TABLE_MARK + table] else [];
      UnlinesConcat(header, [RowText(row)]);
      Assoc3(out, Unlines(header), RowText(row) + "\n");
      if |tables[table]| == 1 {
        OneLine(TABLE_MARK + table);
        out := out + ("@table:" + table + "\n");
      } else {
        assert out + "" == out;
      }
      var line := PrintRow(row);
      OneLine(line);
      file.content := Some(out + (line + "\n"));
      ok := true;
    }

    method ApplyBootstrapSchema() returns (ok: bool)
      modifies this`tables, file`content
      ensures tables == Bootstrap() && ok == file.writable
      ensures file.content == if ok then Some(Save(Bootstrap())) else old(file.content)
    {
      tables := map[];
      tables := tables["schema_migrations" := []];
      tables := tables["publishers" := []];
      tables := tables["packages" := []];
      tables := tables["package_versions" := []];
      tables := tables["agent_runs" := []];
      hide Append, Bootstrap, Save;
      var row: Row := map[];
      row := row["version" := "001_registry"];
      row := row["checksum" := "native-n1"];
      tables := Append(tables, "schema_migrations", row);
      BootstrapIsBuilt(row);
      ok := SaveSnapshot();
    }

    method TableCount(table: string) returns (n: Option<nat>)
      ensures n.None? <==> table !in tables
      ensures n.Some? ==> n.value == |RowsOf(tables, table)|
    {
      n := if table in tables then Some(|tables[table]|) else None;
    }

    static method Wanted(name: string, columns: seq<string>) returns (found: bool)
      ensures found <==> name in columns
    {
      found := false;
      var j := 0;
      while j < |columns| && !found
        invariant j <= |columns|
        invariant found <==> name in columns[..j]
      {
        assert columns[..j + 1] == columns[..j] + [columns[j]];
        found := name == columns[j];
        j := j + 1;
      }
      assert !found ==> columns[..j] == columns;
    }

    /** The keys as the loop over the map visits them. */
    static method KeyOrder(row: Row) returns (keys: seq<string>)
      ensures forall k :: k in row ==> k in keys
      ensures forall i :: 0 <= i < |keys| ==> keys[i] in row
    {
      keys := SortedKeys(row.Keys);
      assert forall i :: 0 <= i < |keys| ==> keys[i] in keys;
    }

    /** The column loops of `exec_select`. */
    static method Project(row: Row, columns: Projection) returns (out: Row)
      ensures out == ProjectRow(row, columns)
    {
      if columns.None? {
        return row;
      }
      hide *;
      var keys := KeyOrder(row);
      RestrictEnds(row, keys, columns);
      out := map[];
      for i := 0 to |keys|
        invariant out == ProjectRow(Restrict(row, keys[..i]), columns)
      {
        assert keys[i] in row;
        ProjectStep(row, keys[..i], keys[i], columns);
        assert keys[..i + 1] == keys[..i] + [keys[i]];
        var found := Wanted(Lower(keys[i]), columns.value);
        if found {
          out := out[keys[i] := row[keys[i]]];
        }
      }
    }

    static method BehindAs(p: string) returns (name: string)
      ensures name == if Alias(p).Some? then Alias(p).value else p
    {
      hide FindFrom, Trim;
      name := p;
      var asAt := Find(Lower(p), " as ");
      if asAt.Some? {
        name := TrimView(p[asAt.value + 4..]);
      }
    }

    static method ColumnName(part: string) returns (name: string)
      ensures name == SelectColumn(part)
    {
      hide Alias, Trim, Lower, AfterLastDot;
      var p := TrimView(part);
      p := BehindAs(p);
      p := BehindDot(p);
      p := TrimView(p);
      name := Lower(p);
    }

    static method ProjectionColumns(list: string) returns (columns: seq<string>)
      ensures columns == SelectColumns(SplitCommas(list, false, ""))
    {
      hide SplitCommas, SelectColumn;
      var parts := SplitTopLevelCommas(list);
      columns := [];
      for i := 0 to |parts|
        invariant columns == SelectColumns(parts)[..i]
      {
        var name := ColumnName(parts[i]);
        columns := columns + [name];
      }
    }

    /** The WHERE branch of `exec_select`; `unbound` is its early return. */
    static method WhereClause(q: string, params: seq<string>)
      returns (unbound: bool, column: Option<string>, value: Option<string>)
      ensures unbound <==> ParseWhere(q, params).Unbound?
      ensures !unbound && column.Some? && value.Some? ==> ParseWhere(q, params) == Equals(column.value, value.value)
      ensures !unbound && !(column.Some? && value.Some?) ==> ParseWhere(q, params) == Everything
    {
      hide FindFrom, Trim, UnquoteLiteral, RFindChar, Lower, AfterLastDot;
      unbound, column, value := false, None, None;
      var at := Find(Lower(q), " where ");
      if at.Some? {
        var clause := TrimView(q[at.value + 7..]);
        var limit := Find(Lower(clause), " limit ");
        if limit.Some? {
          clause := TrimView(clause[..limit.value]);
        }
        var eq := Find(clause, "=");
        if eq.Some? {
          var name := TrimView(clause[..eq.value]);
          var rhs := TrimView(clause[eq.value + 1..]);
          if rhs != "" && rhs[0] == '?' {
            if params == [] {
              unbound := true;
              return;
            }
            value := Some(params[0]);
          } else {
            value := Some(UnquoteLiteral(rhs));
          }
          var short := BehindDot(name);
          column := Some(short);
        }
      }
    }

    static method BehindDot(name: string) returns (short: string)
      ensures short == AfterLastDot(name)
    {
      var dot := RFindChar(name, '.');
      short := if dot.Some? then name[dot.value + 1..] else name;
    }

    /** The row loop of `exec_select`. */
    static method SelectRows(rows: seq<Row>, column: Option<string>, value: Option<string>, columns: Projection,
                             ghost filter: Filter) returns (kept: seq<Row>)
      requires column.Some? && value.Some? ==> filter == Equals(column.value, value.value)
      requires !(column.Some? && value.Some?) ==> filter == Everything
      ensures kept == FilterProject(rows, filter, columns)
    {
      hide ProjectRow;
      kept := [];
      for i := 0 to |rows|
        invariant kept == FilterProject(rows[..i], filter, columns)
      {
        assert rows[..i + 1][..i] == rows[..i];
        if column.Some? && value.Some? && !(column.value in rows[i] && rows[i][column.value] == value.value) {
          assert !Matches(rows[i], filter);
        } else {
          var out := Project(rows[i], columns);
          if out != map[] {
            kept := kept + [out];
          }
        }
      }
      assert rows[..|rows|] == rows;
    }

    method ExecSelect(sql: string, params: seq<string>) returns (result: ExecResult)
      requires StartsWith(Lower(TrimSql(sql)), "select")
      modifies this`tables
      ensures Outcome(result, tables) == Native.ExecSelect(old(tables), sql, params)
    {
      hide FindFrom, FilterProject, ParseWhere, SelectColumns, SplitCommas, Trim, TrimSql, Alias, SelectOne, Decimal;
      var q := TrimStatement(sql);
      if StartsWith(Lower(q), "select 1") {
        return SelectOne(q);
      }
      var from := Find(Lower(q), " from ");
      if from.None? {
        return NOTHING;
      }
      FromAfterSelect(q, from.value);
      var table := SelectTable(q, from.value);
      var unbound, column, value := WhereClause(q, params);
      if unbound {
        return NOTHING;
      }
      tables := Touch(tables, table);
      var rows := tables[table];
      var list := SelectList(q, from.value);
      if Find(Lower(q), "count(*)").Some? {
        var alias := Alias(list);
        var key := if alias.None? then "count(*)" else alias.value;
        return ExecResult([map[key := Decimal(|rows|)]], 0);
      }
      var columns: Projection := None;
      if list != "*" {
        var cs := ProjectionColumns(list);
        columns := Some(cs);
      }
      var kept := SelectRows(rows, column, value, columns, ParseWhere(q, params));
      result := ExecResult(kept, 0);
    }

    /** The binding loop of `exec_insert`; `None` when the parameters run out. */
    static method Bind(columns: seq<string>, values: seq<string>, params: seq<string>) returns (bound: Option<Row>)
      ensures bound == BindRow(columns, values, params, 0, 0, map[])
    {
      var row: Row := map[];
      var used := 0;
      for i := 0 to |columns|
        invariant BindRow(columns, values, params, i, used, row) == BindRow(columns, values, params, 0, 0, map[])
      {
        var val := "";
        if i < |values| {
          var raw := TrimView(values[i]);
          if raw == "?" {
            if used >= |params| {
              return None;
            }
            val := params[used];
            used := used + 1;
          } else {
            UnquoteTrimmed(values[i]);
            val := UnquoteLiteral(raw);
          }
        }
        row := row[columns[i] := val];
      }
      bound := Some(row);
    }

    /** The scanning half of `exec_insert`, with its five early returns. */
    static method ScanInsert(q: string) returns (text: Option<InsertText>)
      ensures text == ParseInsert(q)
    {
      hide FindFrom, Trim, SplitCommas, ScanClose;
      var into := Find(Lower(q), "insert into ");
      if into.None? {
        return None;
      }
      var rest := q[into.value + 12..];
      var open := Find(rest, "(");
      if open.None? {
        return None;
      }
      var table := TrimView(rest[..open.value]);
      var colClose, depth := SkipParens(rest, open.value + 1);
      if depth != 0 {
        return None;
      }
      var colsPart := TrimView(rest[open.value + 1..colClose - 1]);
      var valuesAt := FindFrom(Lower(rest), " values ", colClose);
      if valuesAt.None? {
        return None;
      }
      var valOpen := FindFrom(rest, "(", valuesAt.value);
      if valOpen.None? {
        return None;
      }
      var valClose, valDepth := SkipParens(rest, valOpen.value + 1);
      if valDepth != 0 {
        return None;
      }
      var valsPart := TrimView(rest[valOpen.value + 1..valClose - 1]);
      var columns := SplitTopLevelCommas(colsPart);
      var values := SplitTopLevelCommas(valsPart);
      text := Some(InsertText(table, columns, values));
    }

    method ExecInsert(sql: string, params: seq<string>) returns (result: ExecResult)
      modifies this`tables, file`content
      ensures tables == (var r := InsertedRow(sql, params);
                         if r.None? then old(tables) else Append(old(tables), r.value.0, r.value.1))
      ensures result == ExecResult([], if InsertedRow(sql, params).Some? && file.writable then 1 else 0)
      ensures file.content == if result.affected == 1 then Some(Save(tables)) else old(file.content)
    {
      hide ParseInsert, BindRow, TrimSql;
      var q := TrimStatement(sql);
      var text := ScanInsert(q);
      if text.None? {
        return NOTHING;
      }
      var row := Bind(text.value.columns, text.value.values, params);
      if row.None? {
        return NOTHING;
      }
      tables := Append(tables, text.value.table, row.value);
      var saved := SaveSnapshot();
      result := ExecResult([], if saved then 1 else 0);
    }

    /** Every statement: the new tables, the result and the file are the ones `Native.Exec` and `Save` give. */
    method Exec(sql: string, params: seq<string>) returns (result: ExecResult)
      modifies this`tables, file`content
      ensures Outcome(result, tables) == Native.Exec(old(tables), sql, params, file.writable)
      ensures file.content ==
              if file.writable then FileAfter(old(file.content), old(tables), sql, params) else old(file.content)
    {
      hide TrimSql, InsertedRow, Native.ExecSelect, Append, Lower, StartsWith;
      var q := TrimStatement(sql);
      TrimSqlOfTrimmed(q);
      if StartsWith(Lower(q), "select") {
        SelectOnlyTouches(tables, q, params);
        result := ExecSelect(q, params);
      } else if StartsWith(Lower(q), "insert") {
        result := ExecInsert(q, params);
      } else {
        result := NOTHING;
      }
    }
  }

  lemma UnquoteTrimmed(v: string)
    ensures UnquoteLiteral(Trim(v)) == UnquoteLiteral(v)
  {
    hide TrimLeft, TrimRight, StartsWith, Trim;
    TrimIsTrimmed(v);
    TrimOfTrimmed(Trim(v));
  }

  /** The same rows in every table; tables without rows may differ. */
  ghost predicate SameRows(a: Tables, b: Tables) {
    forall t :: RowsOf(a, t) == RowsOf(b, t)
  }

  /** Every table of `a` is a prefix of the same table of `b`. */
  ghost predicate Behind(a: Tables, b: Tables) {
    forall t :: RowsOf(a, t) <= RowsOf(b, t)
  }

  lemma BehindTransitive(a: Tables, b: Tables, c: Tables)
    requires Behind(a, b) && Behind(b, c)
    ensures Behind(a, c)
  {
    forall t
      ensures RowsOf(a, t) <= RowsOf(c, t)
    {
      assert RowsOf(a, t) <= RowsOf(b, t) && RowsOf(b, t) <= RowsOf(c, t);
    }
  }

  /** A SELECT affects no row; at most it enters the table it names, without rows. */
  lemma SelectOnlyTouches(tables: Tables, sql: string, params: seq<string>)
    requires StartsWith(Lower(TrimSql(sql)), "select")
    ensures
      var o := Native.ExecSelect(tables, sql, params);
      o.result.affected == 0 && (o.tables == tables || exists t :: o.tables == Touch(tables, t))
  {
    hide ParseWhere, SelectTable, SelectList, FilterProject, SelectColumns, SplitCommas, Alias,
         Decimal, Find, Lower, StartsWith, TrimSql, Touch;
  }

  /** Statements add at most one row to one table; only a SELECT may add a table. */
  lemma ExecChangesAtMostOneTable(tables: Tables, sql: string, params: seq<string>)
    ensures
      var after := Native.Exec(tables, sql, params, true);
      if after.result.affected == 1 then exists t, row :: after.tables == Append(tables, t, row)
      else SameRows(after.tables, tables)
  {
    hide InsertedRow, Native.ExecSelect, TrimSql, Lower, StartsWith;
    var q := TrimSql(sql);
    TrimSqlOfTrimmed(q);
    if StartsWith(Lower(q), "select") {
      SelectOnlyTouches(tables, q, params);
    } else if StartsWith(Lower(q), "insert") && InsertedRow(q, params).Some? {
      var r := InsertedRow(q, params).value;
      assert Native.Exec(tables, sql, params, true).tables == Append(tables, r.0, r.1);
    }
  }

  /**
   The snapshot follows memory: if reloading the file gives the rows in memory before a
   statement, it gives them after it too, as long as the tables stay durable.
   */
  lemma SnapshotFollowsMemory(content: Option<string>, tables: Tables, sql: string, params: seq<string>)
    requires SameRows(Load(content), tables)
    requires Durable(Native.Exec(tables, sql, params, true).tables)
    ensures SameRows(Load(FileAfter(content, tables, sql, params)), Native.Exec(tables, sql, params, true).tables)
  {
    hide Native.Exec, Durable, Save, Replay;
    SnapshotRoundTrip(Native.Exec(tables, sql, params, true).tables);
    ExecChangesAtMostOneTable(tables, sql, params);
  }
}
