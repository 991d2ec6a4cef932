/**
 The catalog snapshot file: what `save_snapshot` prints, what `replay_snapshot` reads,
 and exactly which catalogs survive the round trip.
 */
module Snapshot {
  import opened Text
  import opened Native
  import opened StdMap

  // ---------------------------------------------------------------- printing

  function FieldText(k: string, v: string): string {
    k + ("=" + v)
  }

  function FieldTexts(row: Row, keys: seq<string>): (r: seq<string>)
    requires forall i :: 0 <= i < |keys| ==> keys[i] in row
    ensures |r| == |keys| && forall i :: 0 <= i < |keys| ==> r[i] == FieldText(keys[i], row[keys[i]])
  {
    seq(|keys|, i requires 0 <= i < |keys| => FieldText(keys[i], row[keys[i]]))
  }

  /** One row: `key=value` fields in key order with bars between them. */
  function RowText(row: Row): string {
    var keys := SortedKeys(row.Keys);
    assert forall i :: 0 <= i < |keys| ==> keys[i] in keys;
    Join(FieldTexts(row, keys), "|")
  }

  function RowTexts(rows: seq<Row>): (r: seq<string>)
    ensures |r| == |rows| && forall i :: 0 <= i < |rows| ==> r[i] == RowText(rows[i])
  {
    seq(|rows|, i requires 0 <= i < |rows| => RowText(rows[i]))
  }

  const TABLE_MARK := "@table:"

  /** The lines of one table: its header and its rows. */
  function TableLines(name: string, rows: seq<Row>): seq<string> {
    [TABLE_MARK + name] + RowTexts(rows)
  }

  /** The lines of the whole file: the tables in key order. */
  function Lines(tables: Tables): seq<string>
    decreases |tables|
  {
    if tables == map[] then []
    else
      var t := Least(tables.Keys);
      TableLines(t, tables[t]) + Lines(tables - {t})
  }

  function Unlines(lines: seq<string>): string {
    if lines == [] then "" else lines[0] + ("\n" + Unlines(lines[1..]))
  }

  /** `save_snapshot`. */
  function Save(tables: Tables): string {
    Unlines(Lines(tables))
  }

  // ---------------------------------------------------------------- reading

  /** Length of the text before the first newline. */
  function LineLength(s: string): (n: nat)
    ensures n <= |s| && '\n' !in s[..n] && (n < |s| ==> s[n] == '\n')
  {
    if s == "" || s[0] == '\n' then 0
    else
      var n := LineLength(s[1..]);
      assert s[..n + 1] == [s[0]] + s[1..][..n];
      n + 1
  }

  /** The lines `std::getline` delivers; text behind the last newline is a line only when there is some. */
  function SplitLines(s: string): (r: seq<string>)
    ensures forall i :: 0 <= i < |r| ==> '\n' !in r[i]
    decreases |s|
  {
    if s == "" then []
    else
      var n := LineLength(s);
      [s[..n]] + (if n < |s| then SplitLines(s[n + 1..]) else [])
  }

  /** `split_csv`: always one more field than there are bars. */
  function SplitBars(s: string, cur: string): seq<string>
    decreases |s|
  {
    if s == "" then [cur]
    else if s[0] == '|' then [cur] + SplitBars(s[1..], "")
    else SplitBars(s[1..], cur + [s[0]])
  }

  /** One field assigned: everything before the first `=` is the key; without one the field is skipped. */
  function AddField(row: Row, field: string): Row {
    var eq := Find(field, "=");
    if eq.None? then row else row[field[..eq.value] := field[eq.value + 1..]]
  }

  function AddFields(row: Row, fields: seq<string>): Row
    decreases |fields|
  {
    if fields == [] then row else AddFields(AddField(row, fields[0]), fields[1..])
  }

  function ParseRow(line: string): Row {
    AddFields(map[], SplitBars(line, ""))
  }

  /** The reader's state: the tables so far and the table that rows go to. */
  datatype Reader = Reader(tables: Tables, current: string)

  predicate Skipped(line: string) {
    line == "" || line[0] == '#'
  }

  function ReadLine(r: Reader, line: string): Reader {
    if Skipped(line) then r
    else if StartsWith(line, TABLE_MARK) then Reader(r.tables[line[7..] := []], line[7..])
    else if r.current == "" then r
    else Reader(Append(r.tables, r.current, ParseRow(line)), r.current)
  }

  function ReadLines(r: Reader, lines: seq<string>): Reader
    decreases |lines|
  {
    if lines == [] then r else ReadLines(ReadLine(r, lines[0]), lines[1..])
  }

  /** `replay_snapshot` of an existing file. */
  function Replay(text: string): Tables {
    ReadLines(Reader(map[], ""), SplitLines(text)).tables
  }

  /** `load_or_create`: a missing file is an empty catalog. */
  function Load(file: Option<string>): Tables {
    if file.None? then map[] else Replay(file.value)
  }

  // ---------------------------------------------------------------- what survives

  /** A key, a value and a name that the separators of the format do not cut. */
  predicate CleanCell(k: string, v: string) {
    '=' !in k && '|' !in k && '\n' !in k && '|' !in v && '\n' !in v
  }

  predicate CleanCells(row: Row) {
    forall k :: k in row ==> CleanCell(k, row[k])
  }

  /** The line of the row is read as a row: it is not empty, no comment and no table header. */
  predicate ReadAsRow(row: Row) {
    row != map[] && !StartsWith(Least(row.Keys), "#") && !StartsWith(Least(row.Keys), TABLE_MARK)
  }

  predicate DurableRow(row: Row) {
    CleanCells(row) && ReadAsRow(row)
  }

  /** The condition on a catalog, cell by cell, that the snapshot format asks for. */
  predicate Durable(tables: Tables) {
    forall t :: t in tables ==>
      && '\n' !in t
      && (t == "" ==> tables[t] == [])
      && forall i :: 0 <= i < |tables[t]| ==> DurableRow(tables[t][i])
  }

  // ---------------------------------------------------------------- lines and fields back

  lemma {:induction false} LineLengthOf(l: string, t: string)
    requires '\n' !in l
    ensures LineLength(l + ("\n" + t)) == |l|
  {
    if l == "" {
      assert l + ("\n" + t) == "\n" + t;
    } else {
      assert (l + ("\n" + t))[0] == l[0] && (l + ("\n" + t))[1..] == l[1..] + ("\n" + t);
      LineLengthOf(l[1..], t);
    }
  }

  predicate NoNewlines(lines: seq<string>) {
    forall i :: 0 <= i < |lines| ==> '\n' !in lines[i]
  }

  lemma {:induction false} SplitUnlines(lines: seq<string>)
    requires NoNewlines(lines)
    ensures SplitLines(Unlines(lines)) == lines
  {
    if lines != [] {
      var l, t := lines[0], Unlines(lines[1..]);
      var s := l + ("\n" + t);
      LineLengthOf(l, t);
      assert s[..|l|] == l && s[|l| + 1..] == t;
      SplitUnlines(lines[1..]);
    }
  }

  lemma {:induction false} SplitBarsTakes(x: string, t: string, cur: string)
    requires '|' !in x
    ensures SplitBars(x + t, cur) == SplitBars(t, cur + x)
  {
    if x == "" {
      assert x + t == t && cur + x == cur;
    } else {
      assert (x + t)[0] == x[0] && (x + t)[1..] == x[1..] + t;
      SplitBarsTakes(x[1..], t, cur + [x[0]]);
      assert cur + [x[0]] + x[1..] == cur + x;
    }
  }

  predicate NoBars(fields: seq<string>) {
    forall i :: 0 <= i < |fields| ==> '|' !in fields[i]
  }

  lemma {:induction false} SplitBarsOfJoin(fields: seq<string>)
    requires NoBars(fields) && fields != []
    ensures SplitBars(Join(fields, "|"), "") == fields
  {
    var f := fields[0];
    assert "" + f == f;
    if |fields| == 1 {
      assert f + "" == f;
      SplitBarsTakes(f, "", "");
    } else {
      var t := Join(fields[1..], "|");
      Assoc3(f, "|", t);
      SplitBarsTakes(f, "|" + t, "");
      assert ("|" + t)[0] == '|' && ("|" + t)[1..] == t;
      SplitBarsOfJoin(fields[1..]);
    }
  }

  lemma AddCleanField(row: Row, k: string, v: string)
    requires '=' !in k
    ensures AddField(row, FieldText(k, v)) == row[k := v]
  {
    var f := FieldText(k, v);
    FindSkip(k, "=" + v, "=");
    FindFront("=" + v, "=");
    assert f[..|k|] == k && f[|k| + 1..] == v;
  }

  /** Adding the fields of the remaining keys completes the row. */
  lemma {:induction false} AddFieldsOfKeys(row: Row, keys: seq<string>, done: Row)
    requires forall i :: 0 <= i < |keys| ==> keys[i] in row && '=' !in keys[i]
    requires forall k :: k in row ==> k in keys || k in done
    requires forall k :: k in done ==> k in row && done[k] == row[k]
    ensures AddFields(done, FieldTexts(row, keys)) == row
  {
    if keys == [] {
      assert done.Keys == row.Keys;
    } else {
      var k, rest := keys[0], keys[1..];
      var next := done[k := row[k]];
      AddCleanField(done, k, row[k]);
      assert FieldTexts(row, keys)[1..] == FieldTexts(row, rest);
      assert keys == [k] + rest;
      assert forall x :: x in row ==> x in rest || x in next;
      hide AddField, FieldText, Find;
      AddFieldsOfKeys(row, rest, next);
    }
  }

  /** A printed row with clean cells is parsed back. */
  lemma ParsePrintedRow(row: Row)
    requires CleanCells(row)
    ensures row != map[] ==> ParseRow(RowText(row)) == row
    ensures row == map[] ==> RowText(row) == ""
  {
    var keys := SortedKeys(row.Keys);
    assert forall i :: 0 <= i < |keys| ==> keys[i] in keys;
    if row != map[] {
      var fields := FieldTexts(row, keys);
      assert keys != [] by {
        var k :| k in row;
        assert k in keys;
      }
      forall i | 0 <= i < |fields|
        ensures '|' !in fields[i]
      {
        assert CleanCell(keys[i], row[keys[i]]);
      }
      SplitBarsOfJoin(fields);
      AddFieldsOfKeys(row, keys, map[]);
    }
  }

  // ---------------------------------------------------------------- how a printed row is read

  lemma KeyStartsLine(k: string, t: string, p: string)
    requires '=' !in p
    ensures StartsWith(k + ("=" + t), p) <==> StartsWith(k, p)
  {
    var line := k + ("=" + t);
    if |p| <= |k| {
      assert line[..|p|] == k[..|p|];
    } else if |p| <= |line| {
      assert line[..|p|][|k|] == '=';
    }
  }

  lemma RowTextStart(row: Row) returns (t: string)
    requires row != map[]
    ensures RowText(row) == Least(row.Keys) + ("=" + t)
  {
    var keys := SortedKeys(row.Keys);
    assert forall i :: 0 <= i < |keys| ==> keys[i] in keys;
    var k := Least(row.Keys);
    var fields := FieldTexts(row, keys);
    assert fields[0] == k + ("=" + row[k]);
    if |fields| == 1 {
      t := row[k];
    } else {
      var rest := "|" + Join(fields[1..], "|");
      t := row[k] + rest;
      assert RowText(row) == fields[0] + "|" + Join(fields[1..], "|");
      Assoc3(fields[0], "|", Join(fields[1..], "|"));
      Assoc3(k, "=" + row[k], rest);
      Assoc3("=", row[k], rest);
    }
  }

  predicate IsRowLine(line: string) {
    !Skipped(line) && !StartsWith(line, TABLE_MARK)
  }

  lemma RowLineIffReadAsRow(row: Row)
    ensures IsRowLine(RowText(row)) <==> ReadAsRow(row)
  {
    if row == map[] {
      assert RowText(row) == "";
    } else {
      var t := RowTextStart(row);
      KeyStartsLine(Least(row.Keys), t, "#");
      KeyStartsLine(Least(row.Keys), t, TABLE_MARK);
      assert StartsWith(RowText(row), "#") <==> RowText(row)[0] == '#';
    }
  }

  // ---------------------------------------------------------------- reading back what was printed

  lemma {:induction false} ReadLinesConcat(r: Reader, a: seq<string>, b: seq<string>)
    ensures ReadLines(r, a + b) == ReadLines(ReadLines(r, a), b)
    decreases |a|
  {
    if a == [] {
      assert a + b == b;
    } else {
      assert (a + b)[0] == a[0] && (a + b)[1..] == a[1..] + b;
      ReadLinesConcat(ReadLine(r, a[0]), a[1..], b);
    }
  }

  predicate DurableRows(rows: seq<Row>) {
    forall i :: 0 <= i < |rows| ==> DurableRow(rows[i])
  }

  predicate AllReadAsRows(rows: seq<Row>) {
    forall i :: 0 <= i < |rows| ==> ReadAsRow(rows[i])
  }

  /** What a row is after a save and a load, whatever separators its values hold. */
  function Reload(row: Row): Row {
    ParseRow(RowText(row))
  }

  function ReloadRows(rows: seq<Row>): (r: seq<Row>)
    ensures |r| == |rows| && forall i :: 0 <= i < |rows| ==> r[i] == Reload(rows[i])
  {
    seq(|rows|, i requires 0 <= i < |rows| => Reload(rows[i]))
  }

  function ReloadTables(tables: Tables): Tables {
    map t | t in tables :: ReloadRows(tables[t])
  }

  lemma ReadOneRow(r: Reader, row: Row)
    requires r.current != "" && ReadAsRow(row)
    ensures ReadLine(r, RowText(row)) == Reader(Append(r.tables, r.current, Reload(row)), r.current)
  {
    hide RowText, ParseRow, RowsOf;
    RowLineIffReadAsRow(row);
  }

  lemma DurableRowReloads(row: Row)
    requires DurableRow(row)
    ensures Reload(row) == row
  {
    ParsePrintedRow(row);
  }

  lemma {:induction false} ReadRows(r: Reader, rows: seq<Row>)
    requires r.current != "" && r.current in r.tables && AllReadAsRows(rows)
    ensures ReadLines(r, RowTexts(rows)) == Reader(r.tables[r.current := r.tables[r.current] + ReloadRows(rows)], r.current)
    decreases |rows|
  {
    hide RowText, ReadLine, ReadAsRow, Reload;
    var t := r.current;
    if rows == [] {
      assert r.tables[t] + ReloadRows(rows) == r.tables[t];
      assert r.tables[t := r.tables[t]] == r.tables;
    } else {
      hide ReloadRows, RowTexts;
      ReadOneRow(r, rows[0]);
      var next := Reader(Append(r.tables, t, Reload(rows[0])), t);
      FirstRowText(rows);
      ReadRows(next, rows[1..]);
      Assoc3(r.tables[t], [Reload(rows[0])], ReloadRows(rows[1..]));
      var all := r.tables[t] + ReloadRows(rows);
      assert next.tables[t := all] == r.tables[t := all];
    }
  }

  lemma FirstRowText(rows: seq<Row>)
    requires rows != []
    ensures RowTexts(rows) == [RowText(rows[0])] + RowTexts(rows[1..])
    ensures ReloadRows(rows) == [Reload(rows[0])] + ReloadRows(rows[1..])
  {
    hide RowText, Reload;
  }

  lemma ReadHeader(r: Reader, name: string)
    ensures ReadLine(r, TABLE_MARK + name) == Reader(r.tables[name := []], name)
  {
    var line := TABLE_MARK + name;
    assert line[..7] == TABLE_MARK && line[7..] == name && line[0] == '@';
  }

  lemma ReadTable(r: Reader, name: string, rows: seq<Row>)
    requires AllReadAsRows(rows) && (name == "" ==> rows == [])
    ensures ReadLines(r, TableLines(name, rows)) == Reader(r.tables[name := ReloadRows(rows)], name)
  {
    hide ReadLines, ReadLine, ReadAsRow, RowText, Reload;
    ReadHeader(r, name);
    var headed := Reader(r.tables[name := []], name);
    ReadLast(r, TABLE_MARK + name);
    ReadLinesConcat(r, [TABLE_MARK + name], RowTexts(rows));
    if name != "" {
      ReadRows(headed, rows);
      assert [] + ReloadRows(rows) == ReloadRows(rows);
      assert r.tables[name := []][name := ReloadRows(rows)] == r.tables[name := ReloadRows(rows)];
    } else {
      assert RowTexts(rows) == [] && ReloadRows(rows) == [];
      ReadNothing(headed);
    }
  }

  /** The last table of the file, `otherwise` when there is none. */
  function LastName(tables: Tables, otherwise: string): (l: string)
    ensures tables != map[] ==> l in tables && forall t :: t in tables ==> LexLeq(t, l)
    ensures tables == map[] ==> l == otherwise
    decreases |tables|
  {
    if tables == map[] then otherwise
    else
      var t := Least(tables.Keys);
      var rest := tables - {t};
      LexTotal(t, t);
      LastName(rest, t)
  }

  lemma ReadNothing(r: Reader)
    ensures ReadLines(r, []) == r
  {
  }

  /** Every row's line is read as a row; nothing is asked of bars in values. */
  predicate RowsReadBack(tables: Tables) {
    forall t :: t in tables ==> AllReadAsRows(tables[t]) && (t == "" ==> tables[t] == [])
  }

  /** Reading printed tables adds each of them with its rows reloaded. */
  lemma {:induction false} ReadTables(r: Reader, tables: Tables)
    requires RowsReadBack(tables)
    ensures ReadLines(r, Lines(tables)) == Reader(r.tables + ReloadTables(tables), LastName(tables, r.current))
    decreases |tables|
  {
    hide ReadLines, ReadLine, LexLeq, TableLines, AllReadAsRows, ReloadRows;
    if tables == map[] {
      ReadNothing(r);
      assert r.tables + ReloadTables(tables) == r.tables;
    } else {
      var t := Least(tables.Keys);
      var rest := tables - {t};
      var one := Reader(r.tables[t := ReloadRows(tables[t])], t);
      ReadTable(r, t, tables[t]);
      ReadLinesConcat(r, TableLines(t, tables[t]), Lines(rest));
      ReadTables(one, rest);
      MergeStep(r.tables, tables, t);
    }
  }

  lemma MergeStep(m: Tables, tables: Tables, t: string)
    requires t in tables
    ensures m[t := ReloadRows(tables[t])] + ReloadTables(tables - {t}) == m + ReloadTables(tables)
  {
    hide ReloadRows;
  }

  lemma DurableReloads(tables: Tables)
    requires Durable(tables)
    ensures RowsReadBack(tables) && ReloadTables(tables) == tables
  {
    hide Reload, ReadAsRow, CleanCells;
    forall t | t in tables
      ensures AllReadAsRows(tables[t]) && ReloadRows(tables[t]) == tables[t]
    {
      forall i | 0 <= i < |tables[t]|
        ensures Reload(tables[t][i]) == tables[t][i] && ReadAsRow(tables[t][i])
      {
        assert DurableRow(tables[t][i]);
        DurableRowReloads(tables[t][i]);
      }
    }
  }

  predicate OneLineRow(row: Row) {
    forall k :: k in row ==> '\n' !in k && '\n' !in row[k]
  }

  predicate OneLineNames(tables: Tables) {
    forall t :: t in tables ==> '\n' !in t && forall i :: 0 <= i < |tables[t]| ==> OneLineRow(tables[t][i])
  }

  lemma RowTextHasNoNewline(row: Row)
    requires OneLineRow(row)
    ensures '\n' !in RowText(row)
  {
    var keys := SortedKeys(row.Keys);
    assert forall i :: 0 <= i < |keys| ==> keys[i] in keys;
    var fields := FieldTexts(row, keys);
    forall i | 0 <= i < |fields|
      ensures '\n' !in fields[i]
    {
      assert keys[i] in row;
    }
    JoinAvoids(fields, "|", '\n');
  }

  lemma {:induction false} LinesHaveNoNewlines(tables: Tables)
    requires OneLineNames(tables)
    ensures NoNewlines(Lines(tables))
    decreases |tables|
  {
    if tables != map[] {
      hide TableLines, OneLineRow, LexLeq;
      var t := Least(tables.Keys);
      LinesHaveNoNewlines(tables - {t});
      TableLinesHaveNoNewlines(t, tables[t]);
    }
  }

  lemma TableLinesHaveNoNewlines(t: string, rows: seq<Row>)
    requires '\n' !in t && forall i :: 0 <= i < |rows| ==> OneLineRow(rows[i])
    ensures NoNewlines(TableLines(t, rows))
  {
    hide RowText, OneLineRow;
    forall i | 0 <= i < |TableLines(t, rows)|
      ensures '\n' !in TableLines(t, rows)[i]
    {
      if i > 0 {
        RowTextHasNoNewline(rows[i - 1]);
      }
    }
  }

  lemma CleanIsOneLine(row: Row)
    requires CleanCells(row)
    ensures OneLineRow(row)
  {
    assert forall k :: k in row ==> CleanCell(k, row[k]);
  }

  lemma CleanNamesAreOneLine(tables: Tables)
    requires NamesAndCellsClean(tables)
    ensures OneLineNames(tables)
  {
    hide CleanCells, OneLineRow;
    forall t, i | t in tables && 0 <= i < |tables[t]|
      ensures OneLineRow(tables[t][i])
    {
      CleanIsOneLine(tables[t][i]);
    }
  }

  predicate NamesAndCellsClean(tables: Tables) {
    forall t :: t in tables ==> '\n' !in t && forall i :: 0 <= i < |tables[t]| ==> CleanCells(tables[t][i])
  }

  /**
   What a save and a load make of a catalog whose lines are read as what they were
   printed for: every row is cut at its bars anew, and nothing else happens.
   */
  lemma SavedRowsReload(tables: Tables)
    requires RowsReadBack(tables) && OneLineNames(tables)
    ensures Replay(Save(tables)) == ReloadTables(tables)
  {
    hide ReloadTables, RowsReadBack, OneLineNames, ReadLines;
    LinesHaveNoNewlines(tables);
    SplitUnlines(Lines(tables));
    ReadTables(Reader(map[], ""), tables);
    assert map[] + ReloadTables(tables) == ReloadTables(tables);
  }

  lemma DurableRoundTrips(tables: Tables)
    requires Durable(tables)
    ensures Replay(Save(tables)) == tables
  {
    DurableReloads(tables);
    CleanNamesAreOneLine(tables);
    SavedRowsReload(tables);
  }

  /** One row more in a durable catalog: only that row is reloaded as something else, if it is. */
  lemma SavedAppendReloads(tables: Tables, t: string, row: Row)
    requires Durable(tables) && t != "" && '\n' !in t && ReadAsRow(row) && OneLineRow(row)
    ensures Replay(Save(Append(tables, t, row))) == Append(tables, t, Reload(row))
  {
    hide Reload, Save, Replay, ReadAsRow, CleanCells, OneLineRow;
    var after := Append(tables, t, row);
    DurableReloads(tables);
    CleanNamesAreOneLine(tables);
    assert RowsOf(tables, t) == [] || ReloadTables(tables)[t] == ReloadRows(RowsOf(tables, t));
    assert ReloadRows(after[t]) == RowsOf(tables, t) + [Reload(row)];
    SavedRowsReload(after);
    assert ReloadTables(after) == Append(tables, t, Reload(row));
  }

  // ---------------------------------------------------------------- what no file can hold

  /** The rows of all tables. */
  function Total(tables: Tables): nat
    decreases |tables|
  {
    if tables == map[] then 0
    else
      var t := Least(tables.Keys);
      |tables[t]| + Total(tables - {t})
  }

  lemma {:induction false} TotalWithout(tables: Tables, t: string)
    requires t in tables
    ensures Total(tables) == |tables[t]| + Total(tables - {t})
    decreases |tables|
  {
    var l := Least(tables.Keys);
    if t != l {
      var rest := tables - {l};
      TotalWithout(rest, t);
      var both := tables - {t};
      assert IsLeast(l, both.Keys);
      LeastIsUnique(both.Keys, l, Least(both.Keys));
      assert both - {l} == rest - {t};
    }
  }

  lemma TotalUpdate(tables: Tables, t: string, rows: seq<Row>)
    ensures Total(tables[t := rows]) == Total(tables) - |RowsOf(tables, t)| + |rows|
  {
    TotalWithout(tables[t := rows], t);
    if t in tables {
      TotalWithout(tables, t);
      assert tables[t := rows] - {t} == tables - {t};
    } else {
      assert tables[t := rows] - {t} == tables;
    }
  }

  function RowLines(lines: seq<string>): nat {
    if lines == [] then 0 else (if IsRowLine(lines[0]) then 1 else 0) + RowLines(lines[1..])
  }

  lemma {:induction false} RowLinesConcat(a: seq<string>, b: seq<string>)
    ensures RowLines(a + b) == RowLines(a) + RowLines(b)
  {
    if a == [] {
      assert a + b == b;
    } else {
      assert (a + b)[0] == a[0] && (a + b)[1..] == a[1..] + b;
      RowLinesConcat(a[1..], b);
    }
  }

  lemma {:induction false} ReadingAddsAtMostTheRowLines(r: Reader, lines: seq<string>)
    ensures Total(ReadLines(r, lines).tables) <= Total(r.tables) + RowLines(lines)
    decreases |lines|
  {
    if lines != [] {
      var line := lines[0];
      ReadingAddsAtMostTheRowLines(ReadLine(r, line), lines[1..]);
      if !Skipped(line) {
        if StartsWith(line, TABLE_MARK) {
          TotalUpdate(r.tables, line[7..], []);
        } else if r.current != "" {
          TotalUpdate(r.tables, r.current, RowsOf(r.tables, r.current) + [ParseRow(line)]);
        }
      }
    }
  }

  lemma {:induction false} RowLinesOfRows(rows: seq<Row>)
    ensures RowLines(RowTexts(rows)) <= |rows|
    ensures RowLines(RowTexts(rows)) == |rows| ==> AllReadAsRows(rows)
    decreases |rows|
  {
    hide RowText, ReadAsRow, IsRowLine;
    if rows != [] {
      assert RowTexts(rows)[1..] == RowTexts(rows[1..]);
      RowLinesOfRows(rows[1..]);
      RowLineIffReadAsRow(rows[0]);
      assert forall i :: 1 <= i < |rows| ==> rows[i] == rows[1..][i - 1];
    }
  }

  lemma RowLinesOfTable(t: string, rows: seq<Row>)
    ensures RowLines(TableLines(t, rows)) <= |rows|
    ensures RowLines(TableLines(t, rows)) == |rows| ==> AllReadAsRows(rows)
  {
    hide RowText, AllReadAsRows;
    RowLinesOfRows(rows);
    var header := TABLE_MARK + t;
    assert header[..7] == TABLE_MARK;
    assert TableLines(t, rows)[0] == header && TableLines(t, rows)[1..] == RowTexts(rows);
  }

  lemma {:induction false} RowLinesOfTables(tables: Tables)
    ensures RowLines(Lines(tables)) <= Total(tables)
    ensures RowLines(Lines(tables)) == Total(tables) ==> forall t :: t in tables ==> AllReadAsRows(tables[t])
    decreases |tables|
  {
    hide AllReadAsRows, LexLeq, TableLines, IsRowLine;
    if tables != map[] {
      var t := Least(tables.Keys);
      var rest := tables - {t};
      var lines := Lines(rest);
      RowLinesOfTables(rest);
      RowLinesConcat(TableLines(t, tables[t]), lines);
      RowLinesOfTable(t, tables[t]);
      assert Lines(tables) == TableLines(t, tables[t]) + lines;
      assert forall x :: x in tables && x != t ==> x in rest && rest[x] == tables[x];
    }
  }

  lemma {:induction false} SplitBarsClean(s: string, cur: string)
    requires '\n' !in s && '|' !in cur && '\n' !in cur
    ensures forall i :: 0 <= i < |SplitBars(s, cur)| ==> '|' !in SplitBars(s, cur)[i] && '\n' !in SplitBars(s, cur)[i]
    decreases |s|
  {
    if s != "" {
      SplitBarsClean(s[1..], if s[0] == '|' then "" else cur + [s[0]]);
    }
  }

  lemma FoundCharIsFirst(s: string, c: char)
    ensures Find(s, [c]).Some? ==> c !in s[..Find(s, [c]).value]
  {
    var n := Find(s, [c]);
    if n.Some? {
      forall i | 0 <= i < n.value
        ensures s[i] != c
      {
        assert !At(s, [c], i);
        assert s[i..i + 1] == [s[i]];
      }
    }
  }

  lemma {:induction false} AddedFieldsAreClean(row: Row, fields: seq<string>)
    requires CleanCells(row)
    requires forall i :: 0 <= i < |fields| ==> '|' !in fields[i] && '\n' !in fields[i]
    ensures CleanCells(AddFields(row, fields))
    decreases |fields|
  {
    if fields != [] {
      var f := fields[0];
      var eq := Find(f, "=");
      if eq.Some? {
        FoundCharIsFirst(f, '=');
        assert CleanCell(f[..eq.value], f[eq.value + 1..]);
      }
      AddedFieldsAreClean(AddField(row, f), fields[1..]);
    }
  }

  predicate Readable(tables: Tables) {
    NamesAndCellsClean(tables) && ("" in tables ==> tables[""] == [])
  }

  /** Whatever the file says, the tables read from it have clean names and cells and no row without a table. */
  lemma {:induction false} ReadTablesAreReadable(r: Reader, lines: seq<string>)
    requires NoNewlines(lines) && Readable(r.tables) && '\n' !in r.current
    ensures Readable(ReadLines(r, lines).tables)
    decreases |lines|
  {
    if lines != [] {
      var line := lines[0];
      SplitBarsClean(line, "");
      AddedFieldsAreClean(map[], SplitBars(line, ""));
      ReadTablesAreReadable(ReadLine(r, line), lines[1..]);
    }
  }

  /** If as many rows come back as were printed, each of them was read as a row. */
  lemma AllRowsComeBack(tables: Tables)
    requires OneLineNames(tables) && Total(Replay(Save(tables))) >= Total(tables)
    ensures forall t :: t in tables ==> AllReadAsRows(tables[t])
  {
    hide AllReadAsRows, OneLineNames, IsRowLine, ReadLines;
    LinesHaveNoNewlines(tables);
    SplitUnlines(Lines(tables));
    ReadingAddsAtMostTheRowLines(Reader(map[], ""), Lines(tables));
    RowLinesOfTables(tables);
  }

  lemma LoadedIsReadable(text: string)
    ensures Readable(Replay(text))
  {
    hide ReadLines, SplitLines;
    ReadTablesAreReadable(Reader(map[], ""), SplitLines(text));
  }

  /** Readable tables whose rows are all read as rows are durable. */
  lemma ReadableIsDurable(tables: Tables)
    requires Readable(tables) && forall t :: t in tables ==> AllReadAsRows(tables[t])
    ensures Durable(tables)
  {
    hide CleanCells, ReadAsRow;
    forall t, i | t in tables && 0 <= i < |tables[t]|
      ensures DurableRow(tables[t][i])
    {
      assert AllReadAsRows(tables[t]);
    }
  }

  /**
   The snapshot round trip, exactly: a catalog comes back from its file if and only if
   it is durable. A cell with a separator, an empty row, a row whose first key looks
   like a comment or a table header, and a row in the nameless table are all lost, and
   nothing else is.
   */
  lemma SnapshotRoundTrip(tables: Tables)
    ensures Replay(Save(tables)) == tables <==> Durable(tables)
  {
    hide Save, Replay, Durable, Total, AllReadAsRows, NamesAndCellsClean;
    if Durable(tables) {
      DurableRoundTrips(tables);
    }
    if Replay(Save(tables)) == tables {
      LoadedIsReadable(Save(tables));
      CleanNamesAreOneLine(tables);
      AllRowsComeBack(tables);
      ReadableIsDurable(tables);
    }
  }

  /**
   Appending to loaded tables: what comes back is those tables with some row appended
   that holds this row's values only if they were durable; then it is the reloaded row.
   */
  lemma AppendComesBack(tables: Tables, t: string, row: Row, other: Row)
    requires Readable(tables) && '\n' !in t && OneLineRow(row)
    requires Replay(Save(Append(tables, t, row))) == Append(tables, t, other)
    ensures Durable(tables) && CleanCells(other)
  {
    hide Save, Replay, ReadAsRow, CleanCells, OneLineRow, Total;
    var after, back := Append(tables, t, row), Append(tables, t, other);
    LoadedIsReadable(Save(after));
    assert back[t][|RowsOf(tables, t)|] == other;
    OneLineAppend(tables, t, row);
    TotalUpdate(tables, t, after[t]);
    TotalUpdate(tables, t, back[t]);
    AllRowsComeBack(after);
    forall x | x in tables
      ensures AllReadAsRows(tables[x])
    {
      assert AllReadAsRows(after[x]);
      assert forall i :: 0 <= i < |tables[x]| ==> after[x][i] == tables[x][i];
    }
    ReadableIsDurable(tables);
  }

  lemma OneLineAppend(tables: Tables, t: string, row: Row)
    requires Readable(tables) && '\n' !in t && OneLineRow(row)
    ensures OneLineNames(Append(tables, t, row))
  {
    hide CleanCells, OneLineRow;
    CleanNamesAreOneLine(tables);
  }

  // ---------------------------------------------------------------- appending one row

  /** The lines that `persist_row` appends for a row just pushed to `table`. */
  function PersistLines(tables: Tables, table: string, row: Row): seq<string> {
    (if |RowsOf(tables, table)| == 1 then [TABLE_MARK + table] else []) + [RowText(row)]
  }

  lemma {:induction false} UnlinesConcat(a: seq<string>, b: seq<string>)
    ensures Unlines(a + b) == Unlines(a) + Unlines(b)
  {
    if a == [] {
      assert a + b == b;
    } else {
      assert (a + b)[0] == a[0] && (a + b)[1..] == a[1..] + b;
      UnlinesConcat(a[1..], b);
      Assoc3("\n", Unlines(a[1..]), Unlines(b));
      Assoc3(a[0], "\n" + Unlines(a[1..]), Unlines(b));
    }
  }

  /**
   `persist_row` is a substitute for `save_snapshot` exactly when the new row is its
   table's first or its table is the last in the file.
   */
  lemma PersistRowAgreesWithSave(tables: Tables, table: string, row: Row)
    requires Durable(Append(tables, table, row))
    ensures
      var after := Append(tables, table, row);
      Replay(Save(tables) + Unlines(PersistLines(after, table, row))) == Replay(Save(after)) <==>
      RowsOf(tables, table) == [] || table == LastName(tables, "")
  {
    hide *;
    var after := Append(tables, table, row);
    var last := LastName(tables, "");
    DurableBefore(tables, table, row);
    DurableRoundTrips(after);
    ReplayPersisted(tables, PersistLines(after, table, row)) by {
      PersistLinesHaveNoNewlines(after, table, row);
    }
    ReadAppended(tables, table, row);
  }

  lemma PersistLinesHaveNoNewlines(tables: Tables, table: string, row: Row)
    requires '\n' !in table && DurableRow(row)
    ensures NoNewlines(PersistLines(tables, table, row))
  {
    CleanIsOneLine(row);
    RowTextHasNoNewline(row);
  }

  lemma ReplayPersisted(tables: Tables, more: seq<string>)
    requires Durable(tables) && NoNewlines(more)
    ensures Replay(Save(tables) + Unlines(more)) == ReadLines(Reader(tables, LastName(tables, "")), more).tables
  {
    hide Lines, ReadLines, SplitLines, Unlines;
    UnlinesConcat(Lines(tables), more);
    DurableReloads(tables);
    CleanNamesAreOneLine(tables);
    LinesHaveNoNewlines(tables);
    SplitUnlines(Lines(tables) + more);
    var start := Reader(map[], "");
    ReadLinesConcat(start, Lines(tables), more);
    ReadTables(start, tables);
    assert map[] + tables == tables;
  }

  lemma DurableBefore(tables: Tables, table: string, row: Row)
    requires Durable(Append(tables, table, row))
    ensures Durable(tables) && table != "" && '\n' !in table && DurableRow(row)
  {
    var after := Append(tables, table, row);
    var rows := RowsOf(tables, table);
    assert table in after && after[table] == rows + [row] && after[table][|rows|] == row;
    forall t | t in tables
      ensures '\n' !in t && (t == "" ==> tables[t] == []) && DurableRows(tables[t])
    {
      assert t in after;
      assert forall i :: 0 <= i < |tables[t]| ==> after[t][i] == tables[t][i];
    }
  }

  lemma ReadAppended(tables: Tables, table: string, row: Row)
    requires Durable(tables) && table != "" && DurableRow(row)
    ensures
      var after := Append(tables, table, row);
      ReadLines(Reader(tables, LastName(tables, "")), PersistLines(after, table, row)).tables == after <==>
      RowsOf(tables, table) == [] || table == LastName(tables, "")
  {
    hide LastName, ReadLine, ReadLines, Durable, ReadAsRow, CleanCells, RowText, Reload;
    var after := Append(tables, table, row);
    var r := Reader(tables, LastName(tables, ""));
    var line := RowText(row);
    DurableRowReloads(row);
    assert ReadAsRow(row);
    if RowsOf(tables, table) == [] {
      var header := TABLE_MARK + table;
      ReadHeader(r, table);
      var headed := Reader(tables[table := []], table);
      ReadOneRow(headed, row);
      ReadTwo(r, header, line);
      assert PersistLines(after, table, row) == [header, line];
      assert headed.tables[table := [] + [row]] == after;
    } else {
      assert PersistLines(after, table, row) == [line];
      ReadLast(r, line);
      assert |after[table]| == |tables[table]| + 1;
      assert LexLeq(table, r.current);
      ReadOneRow(r, row);
      assert table != r.current ==> Append(tables, r.current, row)[table] == tables[table];
    }
  }

  lemma ReadLast(r: Reader, line: string)
    ensures ReadLines(r, [line]) == ReadLine(r, line)
  {
  }

  lemma ReadTwo(r: Reader, a: string, b: string)
    ensures ReadLines(r, [a, b]) == ReadLine(ReadLine(r, a), b)
  {
    assert [a, b][1..] == [b];
    ReadLast(ReadLine(r, a), b);
  }

  // ---------------------------------------------------------------- values that are lost

  /** A value with a bar is cut: the catalog does not come back. */
  lemma BarIsCut()
    ensures Replay(Save(map["t" := [map["a" := "x|b=y"]]])) != map["t" := [map["a" := "x|b=y"]]]
  {
    var tables: Tables := map["t" := [map["a" := "x|b=y"]]];
    assert "x|b=y"[1] == '|';
    assert !CleanCell("a", tables["t"][0]["a"]);
    SnapshotRoundTrip(tables);
  }
}
