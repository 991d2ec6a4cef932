/**
 `execute` and the bridge below it: the checks on a plan's parameters, and one call of
 the engine's command line, which loads the snapshot, runs one statement and saves.
 */
module Bridge {
  import opened Text
  import opened Catalog
  import opened Liq
  import opened Flatten
  import opened Lowering
  import opened Compiler
  import opened Native
  import opened Pipeline
  import opened ReadPipeline
  import opened StdMap
  import opened Snapshot
  import opened NativeEngine
  import opened Transport

  // ---------------------------------------------------------------- plans

  datatype Plan = Plan(sql: string, schema: Schema)

  datatype Failure = UnknownPlan | ParameterMismatch | EngineFailed | MissingColumn | NotANumber | ReadBackFailed

  datatype Try<+T> = Done(value: T) | Raised(why: Failure)

  function KeySet(d: Schema): set<string> {
    set k | k in Keys(d)
  }

  /** The checks of `execute` in front of the engine call, and the values in schema order. */
  function BoundParams(plan: Plan, params: map<string, string>): Try<seq<string>> {
    if params.Keys != KeySet(plan.schema) then Raised(ParameterMismatch)
    else if exists k :: k in params && Find(plan.sql, params[k]).Some? then Raised(ParameterMismatch)
    else
      assert forall k :: k in Keys(plan.schema) ==> k in KeySet(plan.schema);
      Done(OrderedParams(plan.schema, params))
  }

  /** No value occurs in the text it is bound to. */
  lemma BoundValuesAreNotInTheText(plan: Plan, params: map<string, string>)
    requires BoundParams(plan, params).Done?
    ensures forall i :: 0 <= i < |BoundParams(plan, params).value| ==>
              Find(plan.sql, BoundParams(plan, params).value[i]).None?
  {
    forall i | 0 <= i < |plan.schema|
      ensures plan.schema[i].0 in params
    {
      assert Keys(plan.schema)[i] in Keys(plan.schema);
    }
  }

  // ---------------------------------------------------------------- one call

  /** The row that a decoded JSON object is: a later member of one name replaces an earlier one. */
  function RowOf(cells: Cells): Row {
    if cells == [] then map[] else RowOf(cells[..|cells| - 1])[cells[|cells| - 1].0 := cells[|cells| - 1].1]
  }

  function RowsOfCells(all: seq<Cells>): (r: seq<Row>)
    ensures |r| == |all| && forall i :: 0 <= i < |all| ==> r[i] == RowOf(all[i])
  {
    seq(|all|, i requires 0 <= i < |all| => RowOf(all[i]))
  }

  /** The snapshot file after a call, and the rows or the exception. */
  datatype Called = Called(file: Option<string>, answer: Try<seq<Row>>)

  /** `exec-json` reports failure when nothing was affected or returned and the text is no SELECT. */
  predicate Failed(flat: string, r: ExecResult) {
    r.rows == [] && r.affected == 0 && !StartsWith(Lower(flat), "select")
  }

  /** `EmbeddedSession.exec_parameterized`; `opens` is whether the engine can write the snapshot. */
  function Call(file: Option<string>, sql: string, bound: seq<string>, opens: bool): Called {
    var flat := FlattenBridge(sql);
    var params := ReadParams(DumpList(bound), false, "");
    var tables := Load(file);
    var text := FlattenEngine(flat);
    var result := Exec(tables, text, params, opens).result;
    var after := if opens then FileAfter(file, tables, text, params) else file;
    if Failed(flat, result) then Called(after, Raised(EngineFailed))
    else
      var decoded := ReadResult(ResultJson(result));
      Called(after, if decoded.None? then Raised(EngineFailed) else Done(RowsOfCells(decoded.value.0)))
  }

  function Execute(file: Option<string>, plan: Plan, params: map<string, string>, opens: bool): Called {
    var bound := BoundParams(plan, params);
    if bound.Raised? then Called(file, Raised(bound.why)) else Call(file, plan.sql, bound.value, opens)
  }

  // ---------------------------------------------------------------- what reaches the caller

  predicate PlainRow(row: Row) {
    forall k :: k in row ==> PlainJson(k) && PlainJson(row[k])
  }

  predicate AllPlain(rows: seq<Row>) {
    forall i :: 0 <= i < |rows| ==> PlainRow(rows[i])
  }

  lemma {:induction false} RowOfPrefix(row: Row, cells: Cells, n: nat)
    requires n <= |cells| && forall i :: 0 <= i < |cells| ==> cells[i].0 in row && row[cells[i].0] == cells[i].1
    ensures forall k :: k in RowOf(cells[..n]) ==> k in row && RowOf(cells[..n])[k] == row[k]
    ensures forall i :: 0 <= i < n ==> cells[i].0 in RowOf(cells[..n])
  {
    if n > 0 {
      RowOfPrefix(row, cells, n - 1);
      assert cells[..n][..n - 1] == cells[..n - 1] && cells[..n][n - 1] == cells[n - 1];
    }
  }

  lemma RowOfCells(row: Row)
    ensures RowOf(CellsOf(row)) == row
  {
    hide CellsOf, RowOf, LexLeq;
    var cells := CellsOf(row);
    RowOfPrefix(row, cells, |cells|);
    assert cells[..|cells|] == cells;
    forall k | k in row
      ensures k in RowOf(cells)
    {
      var i :| 0 <= i < |cells| && cells[i].0 == k;
    }
  }

  lemma PlainResultDecodes(r: ExecResult)
    requires AllPlain(r.rows)
    ensures ReadResult(ResultJson(r)).Some? && RowsOfCells(ReadResult(ResultJson(r)).value.0) == r.rows
  {
    hide ReadResult, ResultJson, PlainJson;
    var all := AllCells(r.rows);
    forall i | 0 <= i < |all|
      ensures PlainCells(all[i]) && RowOf(all[i]) == r.rows[i]
    {
      assert PlainRow(r.rows[i]);
      RowOfCells(r.rows[i]);
    }
    ResultRoundTrip(r);
  }

  // Decoded rows that equal the printed ones cost at least the printed characters, so nothing was escaped or skipped.

  function Weight(cells: Cells): nat {
    if cells == [] then 0 else Weight(cells[..|cells| - 1]) + |CellJson(cells[|cells| - 1])| + 1
  }

  lemma {:induction false} WeightConcat(a: Cells, b: Cells)
    ensures Weight(a + b) == Weight(a) + Weight(b)
    decreases |b|
  {
    hide CellJson;
    if b == [] {
      assert a + b == a;
    } else {
      assert (a + b)[..|a + b| - 1] == a + b[..|b| - 1];
      WeightConcat(a, b[..|b| - 1]);
    }
  }

  lemma {:induction false} CellsJsonSize(cells: Cells)
    ensures |CellsJson(cells)| == if cells == [] then 1 else Weight(cells)
  {
    hide CellJson;
    if cells != [] {
      if |cells| > 1 {
        CellsJsonSize(cells[1..]);
        WeightConcat([cells[0]], cells[1..]);
        assert cells == [cells[0]] + cells[1..];
      } else {
        assert cells == [cells[0]];
      }
    }
  }

  predicate DistinctKeys(cells: Cells) {
    forall i, j :: 0 <= i < j < |cells| ==> cells[i].0 != cells[j].0
  }

  predicate CellOf(c: (string, string), row: Row) {
    c.0 in row && row[c.0] == c.1
  }

  predicate CellsIn(cells: Cells, row: Row) {
    forall i :: 0 <= i < |cells| ==> CellOf(cells[i], row)
  }

  lemma FirstCellIsIn(cells: Cells, row: Row)
    requires cells != [] && CellsIn(cells, row)
    ensures cells[0].0 in row
  {
    assert CellOf(cells[0], row);
  }

  lemma WeightWithout(cells: Cells, i: nat)
    requires i < |cells|
    ensures Weight(cells) == Weight(cells[..i] + cells[i + 1..]) + Weight([cells[i]])
  {
    hide Weight;
    var a, b := cells[..i], cells[i + 1..];
    assert cells == a + [cells[i]] + b;
    WeightConcat(a + [cells[i]], b);
    WeightConcat(a, [cells[i]]);
    WeightConcat(a, b);
  }

  /** Every cell of a decoded row was decoded, so together they weigh no more than all decoded cells. */
  lemma {:induction false} CellsWeighLess(some: Cells, all: Cells)
    requires DistinctKeys(some) && CellsIn(some, RowOf(all))
    ensures Weight(some) <= Weight(all)
    decreases |all|
  {
    hide Weight, CellJson;
    if all == [] {
      if some != [] {
        FirstCellIsIn(some, RowOf(all));
        assert false;
      }
    } else {
      var init, last := all[..|all| - 1], all[|all| - 1];
      assert all == init + [last];
      WeightConcat(init, [last]);
      if i :| 0 <= i < |some| && some[i].0 == last.0 {
        assert CellOf(some[i], RowOf(all)) && some[i] == last;
        WeightWithout(some, i);
        var rest := some[..i] + some[i + 1..];
        forall j | 0 <= j < |rest|
          ensures CellOf(rest[j], RowOf(init))
        {
          assert rest[j] == if j < i then some[j] else some[j + 1];
          assert CellOf(rest[j], RowOf(all));
        }
        CellsWeighLess(rest, init);
      } else {
        forall j | 0 <= j < |some|
          ensures CellOf(some[j], RowOf(init))
        {
          assert CellOf(some[j], RowOf(all));
        }
        CellsWeighLess(some, init);
      }
    }
  }

  lemma PrintedRowIsShortest(row: Row, cells: Cells)
    requires RowOf(cells) == row
    ensures |CellsJson(CellsOf(row))| <= |CellsJson(cells)|
  {
    hide Weight, CellJson, CellsJson;
    CellsJsonSize(cells);
    CellsJsonSize(CellsOf(row));
    if cells == [] {
      assert row == map[] && |CellsOf(row)| == 0;
    } else {
      CellsOfAreDistinct(row);
      CellsWeighLess(CellsOf(row), cells);
    }
  }

  lemma CellsOfAreDistinct(row: Row)
    ensures DistinctKeys(CellsOf(row)) && CellsIn(CellsOf(row), row)
  {
    hide LexLeq;
  }

  lemma {:induction false} RowsJsonGrows(a: seq<Cells>, b: seq<Cells>)
    requires |a| == |b| && forall i :: 0 <= i < |a| ==> |CellsJson(a[i])| <= |CellsJson(b[i])|
    ensures |RowsJson(a)| <= |RowsJson(b)|
  {
    hide CellsJson;
    if |a| > 1 {
      RowsJsonGrows(a[1..], b[1..]);
    }
  }

  lemma {:induction false} DecodedCell(cells: Cells, k: string) returns (i: nat)
    requires k in RowOf(cells)
    ensures i < |cells| && cells[i] == (k, RowOf(cells)[k])
  {
    var n := |cells| - 1;
    if cells[n].0 == k {
      i := n;
    } else {
      i := DecodedCell(cells[..n], k);
    }
  }

  lemma PlainCellsMakePlainRow(cells: Cells)
    requires PlainCells(cells)
    ensures PlainRow(RowOf(cells))
  {
    hide PlainJson, RowOf;
    forall k | k in RowOf(cells)
      ensures PlainJson(k) && PlainJson(RowOf(cells)[k])
    {
      var i := DecodedCell(cells, k);
    }
  }

  /** A SELECT's rows reach the caller as they are exactly when no key and no value of theirs needs an escape. */
  lemma RowsDecodeExactly(rows: seq<Row>)
    ensures
      var decoded := ReadResult(ResultJson(ExecResult(rows, 0)));
      decoded.Some? && RowsOfCells(decoded.value.0) == rows <==> AllPlain(rows)
  {
    hide ReadResult, PlainCells, CellsOf, CellsJson, RowsJson, PlainRow, RowOf;
    var r := ExecResult(rows, 0);
    var decoded := ReadResult(ResultJson(r));
    if AllPlain(rows) {
      PlainResultDecodes(r);
    }
    if decoded.Some? && RowsOfCells(decoded.value.0) == rows {
      var all := decoded.value.0;
      ResultConsumed(ResultJson(r));
      assert Decimal(0) == "0";
      forall i | 0 <= i < |rows|
        ensures |CellsJson(AllCells(rows)[i])| <= |CellsJson(all[i])| && RowOf(all[i]) == rows[i]
      {
        assert RowsOfCells(all)[i] == rows[i];
        PrintedRowIsShortest(rows[i], all[i]);
      }
      RowsJsonGrows(AllCells(rows), all);
      forall i | 0 <= i < |rows|
        ensures PlainRow(rows[i])
      {
        PlainCellsMakePlainRow(all[i]);
      }
    }
  }

  /** Text that the bridge and the engine flatten to a statement's. */
  predicate Flattens(sql: string, t: string, s: Stmt) {
    FlattenBridge(sql) == FlatText(t, s) && FlattenEngine(FlattenBridge(sql)) == StripTail(FlatText(t, s))
  }

  /** What the caller gets of a SELECT's rows. */
  function Answer(rows: seq<Row>): Try<seq<Row>> {
    var decoded := ReadResult(ResultJson(ExecResult(rows, 0)));
    if decoded.None? then Raised(EngineFailed) else Done(RowsOfCells(decoded.value.0))
  }

  /**
   A read leaves the file alone and answers with what the caller decodes of the rows
   that the executor's scan means: with those very rows exactly when all are plain.
   */
  lemma CallRead(file: Option<string>, sql: string, t: string, s: Stmt, value: string, opens: bool)
    requires s.Read? && s.where.Some? && CleanName(t) && CleanStmt(s) && Flattens(sql, t, s)
    ensures
      var rows := FilterProject(RowsOf(Load(file), t), Equals(s.where.value.column, Received(value)), ProjectionOf(s.columns));
      Call(file, sql, [value], opens) == Called(file, Answer(rows)) && (Answer(rows) == Done(rows) <==> AllPlain(rows))
  {
    hide *;
    SqlText(sql, t, s);
    ReadTextIsWords(t, s);
    ReadIsQuery(t, s);
    CallQuery(file, sql, QueryOf(t, s), [value], opens);
    OneReceived(value);
  }

  lemma ReadIsQuery(t: string, s: Stmt)
    requires s.Read? && CleanName(t) && CleanStmt(s)
    ensures var r := QueryOf(t, s); CleanQuery(r) && r.table == t && r.columns == s.columns && r.where == s.where
  {
    hide CleanName, AllPassed, NoSemicolon;
    OrderWordsPass(s.order);
    OrderEnds(s.order);
  }

  lemma OneReceived(value: string)
    ensures ReceivedAll([value]) == [Received(value)]
  {
  }

  /** The same for the words of any SELECT that compares with its first parameter. */
  lemma CallQuery(file: Option<string>, sql: string, r: Query, values: seq<string>, opens: bool)
    requires CleanQuery(r) && r.where.Some? && values != []
    requires var q := Join(QueryWords(r), " "); FlattenBridge(sql) == q && FlattenEngine(FlattenBridge(sql)) == StripTail(q)
    ensures
      var rows := FilterProject(RowsOf(Load(file), r.table), Equals(r.where.value.column, ReceivedAll(values)[0]), ProjectionOf(r.columns));
      Call(file, sql, values, opens) == Called(file, Answer(rows)) && (Answer(rows) == Done(rows) <==> AllPlain(rows))
  {
    var params := ReceivedAll(values);
    assert params != [];
    hide *;
    var tables, flat := Load(file), Join(QueryWords(r), " ");
    ParamsArriveAs(values);
    ExecQuery(r, tables, params, opens);
    ExecQuery(r, tables, params, true);
    var rows := FilterProject(RowsOf(tables, r.table), Equals(r.where.value.column, params[0]), ProjectionOf(r.columns));
    AnswerCases(rows);
    ReadStarts(flat, r);
    CallCases(file, sql, values, opens);
    FileAfterRead(file, tables, StripTail(flat), params);
    SelectDoesNotFail(flat, ExecResult(rows, 0));
  }

  lemma AnswerCases(rows: seq<Row>)
    ensures
      var decoded := ReadResult(ResultJson(ExecResult(rows, 0)));
      Answer(rows) == if decoded.None? then Raised(EngineFailed) else Done(RowsOfCells(decoded.value.0))
    ensures Answer(rows) == Done(rows) <==> AllPlain(rows)
  {
    hide ReadResult, ResultJson, RowsOfCells, AllPlain;
    RowsDecodeExactly(rows);
  }

  lemma SqlText(sql: string, t: string, s: Stmt)
    requires Flattens(sql, t, s)
    ensures FlattenBridge(sql) == FlatText(t, s) && FlattenEngine(FlattenBridge(sql)) == StripTail(FlatText(t, s))
  {
  }

  lemma ReadIsSelect(t: string, s: Stmt)
    requires s.Read?
    ensures StartsWith(Lower(FlatText(t, s)), "select")
  {
    hide Join, FlatWhere, FlatOrder, FlatLimit;
    var rest := FlatProjection(s.columns) + (" FROM " + t + FlatWhere(s.where) + FlatOrder(s.order) + FlatLimit(s.limit));
    assert FlatText(t, s)[..6] == "SELECT";
    assert Lower(FlatText(t, s))[..6] == Lower("SELECT") == "select";
  }

  lemma SelectDoesNotFail(flat: string, r: ExecResult)
    requires StartsWith(Lower(flat), "select")
    ensures !Failed(flat, r)
  {
  }

  lemma FileAfterRead(file: Option<string>, tables: Tables, text: string, params: seq<string>)
    requires Exec(tables, text, params, true).result.affected != 1
    ensures FileAfter(file, tables, text, params) == file
  {
    hide Exec;
  }

  lemma CallCases(file: Option<string>, sql: string, bound: seq<string>, opens: bool)
    ensures
      var flat := FlattenBridge(sql);
      var params := ReadParams(DumpList(bound), false, "");
      var tables := Load(file);
      var text := FlattenEngine(flat);
      var result := Exec(tables, text, params, opens).result;
      var after := if opens then FileAfter(file, tables, text, params) else file;
      var decoded := ReadResult(ResultJson(result));
      Call(file, sql, bound, opens) ==
        if Failed(flat, result) || decoded.None? then Called(after, Raised(EngineFailed))
        else Called(after, Done(RowsOfCells(decoded.value.0)))
  {
    hide Exec, FlattenBridge, FlattenEngine, ReadParams, DumpList, Load, FileAfter, ReadResult, ResultJson, Failed, RowsOfCells;
  }

  // ---------------------------------------------------------------- inserts

  /** One parameter for each column, named like it. */
  function ColumnBindings(columns: seq<string>): (bs: seq<Binding>)
    ensures |bs| == |columns| && forall i :: 0 <= i < |bs| ==> bs[i] == Binding(columns[i], ParamRef(columns[i]))
  {
    seq(|columns|, i requires 0 <= i < |columns| => Binding(columns[i], ParamRef(columns[i])))
  }

  lemma {:induction false} RowWithCells(columns: seq<string>, values: seq<string>)
    requires |columns| == |values| && Distinct(columns)
    ensures RowWith(columns, values).Keys == set c | c in columns
    ensures forall i :: 0 <= i < |columns| ==> RowWith(columns, values)[columns[i]] == values[i]
  {
    if columns != [] {
      var n := |columns| - 1;
      RowWithCells(columns[..n], values[..n]);
      assert columns == columns[..n] + [columns[n]];
      assert forall i :: 0 <= i < n ==> columns[i] == columns[..n][i] && columns[i] != columns[n];
    }
  }

  lemma {:induction false} BoundRowWith(columns: seq<string>, params: seq<string>)
    requires |columns| <= |params|
    ensures ParamCount(ColumnBindings(columns)) == |columns|
    ensures BoundRow(ColumnBindings(columns), params) == RowWith(columns, params[..|columns|])
  {
    if columns != [] {
      var n := |columns| - 1;
      assert ColumnBindings(columns)[..n] == ColumnBindings(columns[..n]);
      BoundRowWith(columns[..n], params);
      assert params[..|columns|][..n] == params[..n];
    }
  }

  /** The snapshot cuts a value at its bars. */
  predicate Barless(s: string) {
    '|' !in s
  }

  /** The result printer writes quotes and backslashes bare. */
  predicate Quoteless(s: string) {
    '"' !in s && '\\' !in s
  }

  predicate AllBarless(ss: seq<string>) {
    forall i :: 0 <= i < |ss| ==> Barless(ss[i])
  }

  predicate AllQuoteless(ss: seq<string>) {
    forall i :: 0 <= i < |ss| ==> Quoteless(ss[i])
  }

  /** Bars, quotes and backslashes arrive as they are sent, and no character arrives as one of them or as a newline. */
  lemma {:induction false} ArrivesExactly(s: string)
    ensures PlainJson(Received(s)) <==> Quoteless(s)
    ensures Barless(Received(s)) <==> Barless(s)
    ensures '\n' !in Received(s)
  {
    if s != "" {
      assert s == [s[0]] + s[1..];
      ArrivesExactly(s[1..]);
      SeenExactly(s[0]);
      PlainConcat(Seen(s[0]), Received(s[1..]));
    }
  }

  lemma PlainConcat(a: string, b: string)
    ensures PlainJson(a + b) <==> PlainJson(a) && PlainJson(b)
  {
    if PlainJson(a + b) {
      assert forall i :: 0 <= i < |a| ==> a[i] == (a + b)[i];
      assert forall i :: 0 <= i < |b| ==> b[i] == (a + b)[|a| + i];
    }
  }

  lemma SeenExactly(c: char)
    ensures PlainJson(Seen(c)) <==> c != '"' && c != '\\'
    ensures Barless(Seen(c)) <==> c != '|'
    ensures '\n' !in Seen(c)
  {
    var n := c as int;
    if Printable(c) {
      assert Seen(c)[0] == c;
    } else if n >= 0x10000 {
      var hi, lo := 0xD800 + (n - 0x10000) / 1024, 0xDC00 + (n - 0x10000) % 1024;
      UnicodeIsPlain(hi);
      UnicodeIsPlain(lo);
      PlainConcat(Unicode(hi), Unicode(lo));
    } else {
      UnicodeIsPlain(n);
    }
  }

  lemma HexDigitIsPlain(d: nat)
    requires d < 16
    ensures IsDigit(HexDigit(d)) || 'a' <= HexDigit(d) <= 'f'
  {
  }

  lemma UnicodeIsPlain(n: nat)
    ensures PlainJson(Unicode(n)) && '|' !in Unicode(n) && '\n' !in Unicode(n)
  {
    hide HexDigit;
    HexDigitIsPlain(n / 4096 % 16);
    HexDigitIsPlain(n / 256 % 16);
    HexDigitIsPlain(n / 16 % 16);
    HexDigitIsPlain(n % 16);
  }

  predicate CleanDistinct(columns: seq<string>) {
    columns != [] && Distinct(columns) && forall i :: 0 <= i < |columns| ==> CleanName(columns[i])
  }

  /**
   A row of clean columns and received values: durable exactly without bars, plain
   exactly without quotes and backslashes.
   */
  lemma NewRowExactly(columns: seq<string>, values: seq<string>)
    requires |columns| == |values| && CleanDistinct(columns)
    ensures var row := RowWith(columns, ReceivedAll(values));
            && ReadAsRow(row) && OneLineRow(row)
            && (DurableRow(row) <==> AllBarless(values))
            && (PlainRow(row) <==> AllQuoteless(values))
  {
    hide LexLeq, CleanName, PlainJson, Received, CleanCell, StartsWith, Barless, Quoteless, RowWith;
    var row := RowWith(columns, ReceivedAll(values));
    RowWithCells(columns, ReceivedAll(values));
    forall k | k in row
      ensures '\n' !in k && '\n' !in row[k] && !StartsWith(k, "#") && !StartsWith(k, TABLE_MARK)
      ensures exists i :: 0 <= i < |columns| && columns[i] == k && row[k] == Received(values[i])
    {
      var i :| 0 <= i < |columns| && columns[i] == k;
      assert row[k] == ReceivedAll(values)[i];
      CleanNameIsPlain(k);
      ArrivesExactly(values[i]);
    }
    assert columns[0] in row;
    forall i | 0 <= i < |columns|
      ensures columns[i] in row && PlainJson(columns[i])
      ensures CleanCell(columns[i], row[columns[i]]) <==> Barless(values[i])
      ensures PlainJson(row[columns[i]]) <==> Quoteless(values[i])
    {
      assert columns[i] in columns && row[columns[i]] == ReceivedAll(values)[i];
      CleanNameIsPlain(columns[i]);
      ArrivesExactly(values[i]);
      CleanCellOf(columns[i], row[columns[i]]);
    }
    assert CleanCells(row) <==> AllBarless(values);
  }

  lemma CleanCellOf(k: string, v: string)
    requires CleanName(k) && '\n' !in v
    ensures CleanCell(k, v) <==> Barless(v)
  {
    assert forall i :: 0 <= i < |k| ==> k[i] != '=' && k[i] != '|' && k[i] != '\n';
  }

  lemma CleanNameIsPlain(k: string)
    requires CleanName(k)
    ensures PlainJson(k) && '\n' !in k && !StartsWith(k, "#") && !StartsWith(k, TABLE_MARK)
  {
    assert forall i :: 0 <= i < |k| ==> IsNameChar(k[i]) && k[i] != '\n';
    assert |k| >= 1 ==> k[..1][0] == k[0];
    assert |k| >= 7 ==> k[..7][0] == k[0];
  }

  lemma AppendDurableExactly(tables: Tables, t: string, row: Row)
    requires t != "" && '\n' !in t
    ensures Durable(Append(tables, t, row)) <==> Durable(tables) && DurableRow(row)
  {
    hide DurableRow;
    var after := Append(tables, t, row);
    if Durable(after) {
      DurableBefore(tables, t, row);
    }
    if Durable(tables) && DurableRow(row) {
      forall x, i | x in after && 0 <= i < |after[x]|
        ensures DurableRow(after[x][i])
      {
        if x in tables && i < |tables[x]| {
          assert after[x][i] == tables[x][i];
        }
      }
    }
  }

  /** The insert of one row with a parameter for each column. */
  function InsertOf(t: string, columns: seq<string>): Stmt {
    Insert(t, ColumnBindings(columns))
  }

  /**
   An insert over any tables. When the snapshot can be written, no caller sees more than
   success, and the next load gives the tables with exactly the received row appended if
   and only if they were durable and no value holds a bar; over durable tables it gives
   them with the reloaded row appended, whatever that is. Otherwise the call fails and
   the file stays.
   */
  lemma CallInsert(file: Option<string>, sql: string, t: string, columns: seq<string>, values: seq<string>, opens: bool)
    requires CleanName(t) && CleanDistinct(columns) && |columns| == |values| && Flattens(sql, t, InsertOf(t, columns))
    ensures
      var c := Call(file, sql, values, opens);
      var row := RowWith(columns, ReceivedAll(values));
      if opens then
        && c.answer == Done([])
        && (Load(c.file) == Append(Load(file), t, row) <==> Durable(Load(file)) && AllBarless(values))
        && (Durable(Load(file)) ==> Load(c.file) == Append(Load(file), t, Reload(row)))
      else c == Called(file, Raised(EngineFailed))
  {
    hide *;
    var tables, s, params := Load(file), InsertOf(t, columns), ReceivedAll(values);
    var bs := ColumnBindings(columns);
    var row := RowWith(columns, params);
    var text := StripTail(FlatText(t, s));
    SqlText(sql, t, s);
    ParamsArriveAs(values);
    FieldsAreClean(columns);
    BoundRowWith(columns, params);
    assert params[..|columns|] == params;
    InsertOfIs(t, columns);
    ExecLoweredInsert(t, t, bs, tables, params, opens);
    ExecLoweredInsert(t, t, bs, tables, params, true);
    NewRowExactly(columns, values);
    CleanNameIsPlain(t);
    CleanNameNonEmpty(t);
    AppendDurableExactly(tables, t, row);
    SnapshotRoundTrip(Append(tables, t, row));
    if Durable(tables) {
      SavedAppendReloads(tables, t, row);
    }
    InsertIsNoSelect(t, s);
    CallCases(file, sql, values, opens);
    SavedText(file, tables, text, params, Append(tables, t, row));
    NoRowsDecode(if opens then 1 else 0);
    InsertFails(FlatText(t, s), opens);
  }

  lemma InsertOfIs(t: string, columns: seq<string>)
    ensures InsertOf(t, columns) == Insert(t, ColumnBindings(columns))
  {
  }

  lemma CleanNameNonEmpty(t: string)
    requires CleanName(t)
    ensures t != ""
  {
  }

  lemma FieldsAreClean(columns: seq<string>)
    requires CleanDistinct(columns)
    ensures CleanFields(ColumnBindings(columns))
  {
    hide CleanName;
  }

  lemma InsertIsNoSelect(t: string, s: Stmt)
    requires s.Insert?
    ensures !StartsWith(Lower(FlatText(t, s)), "select")
  {
    hide Join;
    assert FlatText(t, s)[0] == 'I';
    assert Lower(FlatText(t, s))[0] == 'i';
    OtherFirstCharacter(Lower(FlatText(t, s)), "select");
  }

  lemma InsertFails(flat: string, opens: bool)
    requires !StartsWith(Lower(flat), "select")
    ensures Failed(flat, ExecResult([], if opens then 1 else 0)) <==> !opens
  {
  }

  lemma NoRowsDecode(n: nat)
    ensures var r := ExecResult([], n);
            ReadResult(ResultJson(r)).Some? && RowsOfCells(ReadResult(ResultJson(r)).value.0) == []
  {
    hide ReadResult, ResultJson;
    PlainResultDecodes(ExecResult([], n));
  }

  lemma SavedText(file: Option<string>, tables: Tables, text: string, params: seq<string>, after: Tables)
    requires Exec(tables, text, params, true) == Outcome(ExecResult([], 1), after)
    ensures Load(FileAfter(file, tables, text, params)) == Replay(Save(after))
  {
    hide Exec, Save, Replay;
  }
}
