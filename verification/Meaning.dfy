/**
 The meaning of liq statements over tables of column maps, and the theorems that
 compiled statements, flattened and run by the executor, have that meaning.
 */
module Meaning {
  import opened Text
  import opened Catalog
  import opened Flatten
  import opened Liq
  import opened Lowering
  import opened Compiler
  import opened Native
  import opened Pipeline
  import opened ReadPipeline

  // ---------------------------------------------------------------- what a read means

  predicate Selected(row: Row, w: Option<Predicate>, env: map<string, string>)
    requires w.Some? ==> w.value.rhs.ParamRef? && w.value.rhs.name in env
  {
    w.None? || (w.value.column in row && row[w.value.column] == env[w.value.rhs.name])
  }

  function Select(rows: seq<Row>, w: Option<Predicate>, env: map<string, string>): seq<Row>
    requires w.Some? ==> w.value.rhs.ParamRef? && w.value.rhs.name in env
  {
    if rows == [] then []
    else (if Selected(rows[0], w, env) then [rows[0]] else []) + Select(rows[1..], w, env)
  }

  /** The named columns of a row, those it has. */
  function Columns(row: Row, columns: Option<seq<string>>): Row {
    if columns.None? || columns.value == [] then row
    else map c | c in columns.value && c in row :: row[c]
  }

  function Project(rows: seq<Row>, columns: Option<seq<string>>): (r: seq<Row>)
    ensures |r| == |rows| && forall i :: 0 <= i < |rows| ==> r[i] == Columns(rows[i], columns)
  {
    seq(|rows|, i requires 0 <= i < |rows| => Columns(rows[i], columns))
  }

  function DropEmpty(rows: seq<Row>): seq<Row> {
    if rows == [] then []
    else (if rows[0] == map[] then [] else [rows[0]]) + DropEmpty(rows[1..])
  }

  /** Filter, then project, then drop what has no columns left; ORDER and LIMIT play no part. */
  function ReadMeaning(rows: seq<Row>, s: Stmt, env: map<string, string>): seq<Row>
    requires s.Read? && CleanWhere(s.where) && Covers(env, WhereNames(s.where))
  {
    DropEmpty(Project(Select(rows, s.where, env), s.columns))
  }

  /** Keys that the case-insensitive column match of the executor takes as they are. */
  predicate LowerKeyed(row: Row) {
    forall k :: k in row ==> Lower(k) == k
  }

  predicate AllLowerKeyed(rows: seq<Row>) {
    forall i :: 0 <= i < |rows| ==> LowerKeyed(rows[i])
  }

  /**
   The executor compares select names with lower-cased keys. For one row that is the
   named columns exactly when every key it picks up is itself one of the names.
   */
  lemma ProjectionIsExact(row: Row, cs: seq<string>)
    requires CleanList(cs) && cs != []
    ensures ProjectRow(row, Some(cs)) == Columns(row, Some(cs)) <==> forall k :: k in row && Lower(k) in cs ==> k in cs
  {
    var a, b := ProjectRow(row, Some(cs)), Columns(row, Some(cs));
    forall c | c in cs && c in row
      ensures c in a
    {
      CleanWord(c);
    }
    if forall k :: k in row && Lower(k) in cs ==> k in cs {
      assert a.Keys == b.Keys;
    } else {
      var k :| k in row && Lower(k) in cs && k !in cs;
      assert k in a && k !in b;
    }
  }

  // ---------------------------------------------------------------- the executor's loop is that meaning

  lemma {:induction false} SelectSnoc(rows: seq<Row>, w: Option<Predicate>, env: map<string, string>)
    requires rows != [] && (w.Some? ==> w.value.rhs.ParamRef? && w.value.rhs.name in env)
    ensures var n := |rows| - 1;
            Select(rows, w, env) == Select(rows[..n], w, env) + (if Selected(rows[n], w, env) then [rows[n]] else [])
  {
    var n := |rows| - 1;
    if n > 0 {
      SelectSnoc(rows[1..], w, env);
      assert rows[1..][..n - 1] == rows[..n][1..] && rows[..n][0] == rows[0];
      var first := if Selected(rows[0], w, env) then [rows[0]] else [];
      var last := if Selected(rows[n], w, env) then [rows[n]] else [];
      Assoc3(first, Select(rows[1..][..n - 1], w, env), last);
    } else {
      assert rows[..0] == [] && rows[1..] == [];
    }
  }

  lemma {:induction false} DropEmptyConcat(a: seq<Row>, b: seq<Row>)
    ensures DropEmpty(a + b) == DropEmpty(a) + DropEmpty(b)
  {
    if a == [] {
      assert a + b == b;
    } else {
      assert (a + b)[0] == a[0] && (a + b)[1..] == a[1..] + b;
      DropEmptyConcat(a[1..], b);
    }
  }

  lemma ProjectConcat(a: seq<Row>, b: seq<Row>, columns: Option<seq<string>>)
    ensures Project(a + b, columns) == Project(a, columns) + Project(b, columns)
  {
  }

  function FilterOf(w: Option<Predicate>, env: map<string, string>): Filter
    requires w.Some? ==> w.value.rhs.ParamRef? && w.value.rhs.name in env
  {
    if w.None? then Everything else Equals(w.value.column, env[w.value.rhs.name])
  }

  /** No key of the row differs from a named one only in case. */
  predicate CaseExact(row: Row, columns: Option<seq<string>>) {
    columns.None? || columns.value == [] || forall k :: k in row && Lower(k) in columns.value ==> k in columns.value
  }

  /** The check on a table before a read: every row it selects is exact about case. */
  predicate AllCaseExact(rows: seq<Row>, s: Stmt, env: map<string, string>)
    requires s.Read? && CleanWhere(s.where) && Covers(env, WhereNames(s.where))
  {
    forall i :: 0 <= i < |rows| && Selected(rows[i], s.where, env) ==> CaseExact(rows[i], s.columns)
  }

  /** The executor keeps at least the named columns, and more exactly when case is confused. */
  lemma ProjectedCells(row: Row, columns: Option<seq<string>>)
    requires CleanColumns(columns)
    ensures ProjectRow(row, ProjectionOf(columns)) == Columns(row, columns) <==> CaseExact(row, columns)
    ensures |Columns(row, columns)| <= |ProjectRow(row, ProjectionOf(columns))|
    ensures |Columns(row, columns)| == |ProjectRow(row, ProjectionOf(columns))| ==> CaseExact(row, columns)
  {
    if columns.Some? && columns.value != [] {
      var a, b := ProjectRow(row, ProjectionOf(columns)), Columns(row, columns);
      ProjectionIsExact(row, columns.value);
      forall c | c in b
        ensures c in a && a[c] == b[c]
      {
        var i :| 0 <= i < |columns.value| && columns.value[i] == c;
        CleanWord(c);
      }
      FewerCells(b, a);
    }
  }

  lemma FewerCells(a: Row, b: Row)
    requires forall c :: c in a ==> c in b && b[c] == a[c]
    ensures |a| <= |b| && (|a| == |b| ==> a == b)
  {
    var more := b.Keys - a.Keys;
    assert b.Keys == a.Keys + more && |b.Keys| == |a.Keys| + |more|;
    assert |a.Keys| == |a| && |b.Keys| == |b|;
    if |more| == 0 {
      assert more == {};
      assert a.Keys == b.Keys;
    }
  }

  /** The cells of all rows. */
  function CellCount(rows: seq<Row>): nat {
    if rows == [] then 0 else CellCount(rows[..|rows| - 1]) + |rows[|rows| - 1]|
  }

  lemma {:induction false} CellCountConcat(a: seq<Row>, b: seq<Row>)
    ensures CellCount(a + b) == CellCount(a) + CellCount(b)
    decreases |b|
  {
    if b == [] {
      assert a + b == a;
    } else {
      assert (a + b)[..|a + b| - 1] == a + b[..|b| - 1];
      CellCountConcat(a, b[..|b| - 1]);
    }
  }

  lemma CellCountOfOne(row: Row)
    ensures CellCount([row]) == |row| && CellCount([]) == 0
  {
    assert [row][..0] == [];
  }

  /** The meaning of a table with one more row. */
  lemma ReadMeaningStep(rows: seq<Row>, s: Stmt, env: map<string, string>)
    requires s.Read? && CleanWhere(s.where) && Covers(env, WhereNames(s.where)) && rows != []
    ensures
      var n := |rows| - 1;
      var shown := Columns(rows[n], s.columns);
      ReadMeaning(rows, s, env) ==
        ReadMeaning(rows[..n], s, env) + (if Selected(rows[n], s.where, env) && shown != map[] then [shown] else [])
  {
    var n := |rows| - 1;
    SelectSnoc(rows, s.where, env);
    var last := if Selected(rows[n], s.where, env) then [rows[n]] else [];
    ProjectConcat(Select(rows[..n], s.where, env), last, s.columns);
    DropEmptyConcat(Project(Select(rows[..n], s.where, env), s.columns), Project(last, s.columns));
  }

  /** The row loop never shows less than the meaning, and the same cells only for exact rows. */
  lemma {:induction false} FilteredCells(rows: seq<Row>, s: Stmt, env: map<string, string>)
    requires s.Read? && CleanStmt(s) && Covers(env, WhereNames(s.where))
    ensures
      var got, meant := FilterProject(rows, FilterOf(s.where, env), ProjectionOf(s.columns)), ReadMeaning(rows, s, env);
      && CellCount(meant) <= CellCount(got) && |meant| <= |got|
      && (CellCount(meant) == CellCount(got) ==> AllCaseExact(rows, s, env))
      && (AllCaseExact(rows, s, env) ==> got == meant)
  {
    hide ReadMeaning, ProjectRow, Columns, CellCount, CaseExact;
    if rows == [] {
      NothingMeant(s, env);
    } else {
      var n := |rows| - 1;
      var row := rows[n];
      var a, b := ProjectRow(row, ProjectionOf(s.columns)), Columns(row, s.columns);
      var f := FilterOf(s.where, env);
      FilteredCells(rows[..n], s, env);
      ReadMeaningStep(rows, s, env);
      ProjectedCells(row, s.columns);
      CellCountOfOne(a);
      CellCountOfOne(b);
      CellCountConcat(FilterProject(rows[..n], f, ProjectionOf(s.columns)), if Matches(row, f) && a != map[] then [a] else []);
      CellCountConcat(ReadMeaning(rows[..n], s, env), if Selected(row, s.where, env) && b != map[] then [b] else []);
    }
  }

  lemma NothingMeant(s: Stmt, env: map<string, string>)
    requires s.Read? && CleanStmt(s) && Covers(env, WhereNames(s.where))
    ensures ReadMeaning([], s, env) == [] && CellCount([]) == 0
  {
  }

  /** The row loop of `exec_select` is filter, then project, then drop, exactly for tables that do not confuse case. */
  lemma FilterProjectIsMeaning(rows: seq<Row>, s: Stmt, env: map<string, string>)
    requires s.Read? && CleanStmt(s) && Covers(env, WhereNames(s.where))
    ensures FilterProject(rows, FilterOf(s.where, env), ProjectionOf(s.columns)) == ReadMeaning(rows, s, env)
            <==> AllCaseExact(rows, s, env)
  {
    hide FilterProject, ReadMeaning, AllCaseExact, CellCount;
    FilteredCells(rows, s, env);
  }

  // ---------------------------------------------------------------- running a compiled statement

  /** Bridge flattening, then engine flattening, then the executor on the ordered parameters. */
  function Run(low: Lowered, env: map<string, string>, tables: Tables, writable: bool): Outcome
    requires Covers(env, Keys(low.schema))
  {
    Exec(tables, FlattenEngine(FlattenBridge(low.sql)), OrderedParams(low.schema, env), writable)
  }

  lemma SchemaCovered(s: Stmt, env: map<string, string>)
    requires Covers(env, StmtParams(s))
    ensures Covers(env, Keys(SchemaOf(StmtParams(s))))
  {
    SchemaKeysAreFirstUses(StmtParams(s));
  }

  lemma ReadParams(s: Stmt, env: map<string, string>)
    requires s.Read? && CleanWhere(s.where) && Covers(env, StmtParams(s))
    ensures Covers(env, Keys(SchemaOf(StmtParams(s))))
    ensures OrderedParams(SchemaOf(StmtParams(s)), env) == if s.where.None? then [] else [env[s.where.value.rhs.name]]
  {
    hide SchemaOf;
    OrderedParamsOfDistinct(StmtParams(s), env);
  }

  /** What running a compiled read comes to, over any tables. */
  lemma CompiledReadRuns(cat: Allowlist, s: Stmt, env: map<string, string>, tables: Tables, writable: bool)
    requires CleanAllowlist(cat) && s.Read? && LowerStmt(cat, s).Ok? && Covers(env, StmtParams(s))
    ensures ResolveTable(cat, s.table).Ok? && CleanStmt(s) && Covers(env, Keys(LowerStmt(cat, s).value.schema))
    ensures var t := ResolveTable(cat, s.table).value.1;
            Run(LowerStmt(cat, s).value, env, tables, writable) ==
            Outcome(ExecResult(FilterProject(RowsOf(tables, t), FilterOf(s.where, env), ProjectionOf(s.columns)), 0), Touch(tables, t))
  {
    hide Exec, FlattenEngine, FlattenBridge, StripTail, FlatText, LowerStmt, SchemaOf, FilterProject, CleanAllowlist;
    CompiledFlattens(cat, s);
    LoweredSchema(cat, s);
    ReadParams(s, env);
    var t := ResolveTable(cat, s.table).value.1;
    ExecLoweredRead(t, s, tables, OrderedParams(SchemaOf(StmtParams(s)), env), writable);
  }

  /**
   Read compilation preserves meaning. Whatever read compiles, over whatever tables:
   running the compiled SQL returns the rows the read means, in insertion order, and
   changes nothing but that an unknown table now has an empty entry, if and only if no
   selected row has a key that differs from a projected one only in case. An ORDER or
   LIMIT clause makes no difference.
   */
  lemma CompiledReadMeansRead(cat: Allowlist, s: Stmt, env: map<string, string>, tables: Tables, writable: bool)
    requires CleanAllowlist(cat) && s.Read? && LowerStmt(cat, s).Ok? && Covers(env, StmtParams(s))
    ensures ResolveTable(cat, s.table).Ok? && CleanStmt(s) && Covers(env, Keys(LowerStmt(cat, s).value.schema))
    ensures var t := ResolveTable(cat, s.table).value.1;
            Run(LowerStmt(cat, s).value, env, tables, writable)
            == Outcome(ExecResult(ReadMeaning(RowsOf(tables, t), s, env), 0), Touch(tables, t))
            <==> AllCaseExact(RowsOf(tables, t), s, env)
  {
    hide Run, LowerStmt, FilterProject, ReadMeaning, CleanAllowlist, AllCaseExact;
    CompiledReadRuns(cat, s, env, tables, writable);
    FilterProjectIsMeaning(RowsOf(tables, ResolveTable(cat, s.table).value.1), s, env);
  }

  /** Tables written by compiled inserts have lower-case keys, and those never confuse case. */
  lemma LowerKeyedIsExact(rows: seq<Row>, s: Stmt, env: map<string, string>)
    requires s.Read? && CleanWhere(s.where) && Covers(env, WhereNames(s.where)) && AllLowerKeyed(rows)
    ensures AllCaseExact(rows, s, env)
  {
    forall i | 0 <= i < |rows|
      ensures CaseExact(rows[i], s.columns)
    {
      assert LowerKeyed(rows[i]);
    }
  }

  lemma ResolvePlain(cat: Allowlist, name: string)
    requires CleanAllowlist(cat) && '.' !in name && "public" + "." + name in cat
    ensures ResolveTable(cat, name) == Ok(("public", name))
  {
    hide CleanAllowlist;
    FindAbsent(name, ".", 0);
  }

  /** `read agent_runs limit 1` over two rows returns both. */
  lemma LimitIsIgnored(cat: Allowlist)
    requires CleanAllowlist(cat) && "public" + "." + "agent_runs" in cat
    ensures var s := Read("agent_runs", None, None, None, Some(1));
            var rows := [map["id" := "1"], map["id" := "2"]];
            && LowerStmt(cat, s).Ok? && Covers(map[], Keys(LowerStmt(cat, s).value.schema))
            && Run(LowerStmt(cat, s).value, map[], map["agent_runs" := rows], true).result.rows == rows
  {
    hide Run, CleanAllowlist, Lower, LowerStmt, DropEmpty, Project, Select, SplitIdent, ResolveTable, Find;
    var s := Read("agent_runs", None, None, None, Some(1));
    var rows := [map["id" := "1"], map["id" := "2"]];
    assert '.' !in "agent_runs";
    ResolvePlain(cat, "agent_runs");
    ReadLowers(cat, s);
    CompiledReadMeansRead(cat, s, map[], map["agent_runs" := rows], true);
    IdIsLower();
    KeepsBoth(rows);
    SelectAll(rows);
  }

  lemma ReadLowers(cat: Allowlist, s: Stmt)
    requires s.Read? && s.columns.None? && s.where.None? && s.order.None? && ResolveTable(cat, s.table).Ok?
    ensures LowerStmt(cat, s).Ok?
  {
  }

  lemma IdIsLower()
    ensures Lower("id") == "id"
  {
  }

  lemma {:induction false} SelectAll(rows: seq<Row>)
    ensures Select(rows, None, map[]) == rows
  {
    if rows != [] {
      SelectAll(rows[1..]);
    }
  }

  lemma {:induction false} KeepsBoth(rows: seq<Row>)
    requires forall i :: 0 <= i < |rows| ==> "id" in rows[i]
    ensures DropEmpty(Project(rows, None)) == rows
  {
    if rows != [] {
      KeepsBoth(rows[1..]);
      assert Project(rows, None)[0] == rows[0] && Project(rows, None)[1..] == Project(rows[1..], None);
    }
  }

  // ---------------------------------------------------------------- inserts

  /**
   Insert compilation. Whatever insert compiles appends, to the resolved table and
   nowhere else, the row the statement stores, for arbitrary parameter values, exactly
   when no parameter is used twice. With a repeated parameter there are more `?` than
   values and nothing at all happens.
   */
  lemma CompiledInsertAppends(cat: Allowlist, s: Stmt, env: map<string, string>, tables: Tables, writable: bool)
    requires CleanAllowlist(cat) && s.Insert? && LowerStmt(cat, s).Ok? && Covers(env, StmtParams(s))
    ensures ResolveTable(cat, s.table).Ok? && CleanStmt(s) && Covers(env, Keys(LowerStmt(cat, s).value.schema))
    ensures Run(LowerStmt(cat, s).value, env, tables, writable)
            == if Distinct(StmtParams(s)) then
                 Outcome(ExecResult([], if writable then 1 else 0),
                         Append(tables, ResolveTable(cat, s.table).value.1, StoredMeaning(s.bindings, env)))
               else Outcome(NOTHING, tables)
  {
    hide Exec, FlattenEngine, FlattenBridge, StripTail, FlatText, LowerStmt, SchemaOf, CleanAllowlist, BoundRow, StoredMeaning, Distinct;
    CompiledFlattens(cat, s);
    LoweredSchema(cat, s);
    SchemaCovered(s, env);
    var names, bs, t := StmtParams(s), s.bindings, ResolveTable(cat, s.table).value.1;
    var params := OrderedParams(SchemaOf(names), env);
    ParamCountIsLength(bs);
    SchemaKeysAreFirstUses(names);
    FirstUsesOfDistinct(names);
    ExecLoweredInsert(t, s.table, bs, tables, params, writable);
    if Distinct(names) {
      OrderedParamsOfDistinct(names, env);
      BoundRowIsStored(bs, params, env);
    }
  }

  predicate DistinctFields(bs: seq<Binding>) {
    forall i, j :: 0 <= i < j < |bs| ==> bs[i].field != bs[j].field
  }

  /** The stored row is the meant row, field by field, for distinct fields. */
  lemma {:induction false} StoredField(bs: seq<Binding>, env: map<string, string>, i: nat)
    requires i < |bs| && DistinctFields(bs) && Covers(env, ParamNames(bs))
    ensures bs[i].rhs.ParamRef? ==> bs[i].rhs.name in env
    ensures bs[i].field in StoredMeaning(bs, env) && bs[i].field in InsertMeaning(bs, env)
    ensures StoredMeaning(bs, env)[bs[i].field] == if bs[i].rhs.ParamRef? then env[bs[i].rhs.name] else "%s"
    ensures InsertMeaning(bs, env)[bs[i].field] == RhsValue(bs[i].rhs, env)
    decreases |bs|
  {
    var init, last := bs[..|bs| - 1], bs[|bs| - 1];
    assert forall n :: n in ParamNames(init) ==> n in ParamNames(bs);
    assert last.rhs.ParamRef? ==> last.rhs.name in ParamNames(bs);
    if i < |init| {
      assert init[i] == bs[i];
      StoredField(init, env, i);
    }
  }

  lemma {:induction false} StoredKeys(bs: seq<Binding>, env: map<string, string>)
    requires Covers(env, ParamNames(bs))
    ensures StoredMeaning(bs, env).Keys == InsertMeaning(bs, env).Keys
    ensures forall k :: k in StoredMeaning(bs, env) <==> exists i :: 0 <= i < |bs| && bs[i].field == k
  {
    if bs != [] {
      var init, last := bs[..|bs| - 1], bs[|bs| - 1];
      assert forall n :: n in ParamNames(init) ==> n in ParamNames(bs);
      StoredKeys(init, env);
      forall k | k in StoredMeaning(bs, env)
        ensures exists i :: 0 <= i < |bs| && bs[i].field == k
      {
        if k == last.field {
          assert bs[|bs| - 1].field == k;
        } else {
          var i :| 0 <= i < |init| && init[i].field == k;
          assert bs[i].field == k;
        }
      }
      forall i | 0 <= i < |bs|
        ensures bs[i].field in StoredMeaning(bs, env)
      {
        if i < |init| {
          assert init[i].field == bs[i].field;
        }
      }
    }
  }

  /** Constants are lowered to the bare text `%s`: that is what they mean only when they are that text. */
  predicate ConstantsSurvive(bs: seq<Binding>) {
    forall i :: 0 <= i < |bs| ==> bs[i].rhs.ParamRef? || RhsValue(bs[i].rhs, map[]) == "%s"
  }

  lemma StoredIsMeantExactly(bs: seq<Binding>, env: map<string, string>)
    requires DistinctFields(bs) && Covers(env, ParamNames(bs))
    ensures StoredMeaning(bs, env) == InsertMeaning(bs, env) <==> ConstantsSurvive(bs)
  {
    hide StoredMeaning, InsertMeaning, ParamNames;
    StoredKeys(bs, env);
    forall i | 0 <= i < |bs|
      ensures bs[i].field in StoredMeaning(bs, env) && bs[i].field in InsertMeaning(bs, env)
      ensures StoredMeaning(bs, env)[bs[i].field] == InsertMeaning(bs, env)[bs[i].field]
              <==> bs[i].rhs.ParamRef? || RhsValue(bs[i].rhs, map[]) == "%s"
    {
      StoredField(bs, env, i);
    }
  }

  /**
   Insert compilation preserves meaning: for distinct fields, the compiled insert appends
   exactly the row the statement means, and reports it, if and only if no parameter is
   used twice and every constant is the text `%s`.
   */
  lemma CompiledInsertMeansInsertExactly(cat: Allowlist, s: Stmt, env: map<string, string>, tables: Tables)
    requires CleanAllowlist(cat) && s.Insert? && LowerStmt(cat, s).Ok? && Covers(env, StmtParams(s))
    requires DistinctFields(s.bindings)
    ensures ResolveTable(cat, s.table).Ok? && Covers(env, Keys(LowerStmt(cat, s).value.schema))
    ensures Run(LowerStmt(cat, s).value, env, tables, true)
            == Outcome(ExecResult([], 1), Append(tables, ResolveTable(cat, s.table).value.1, InsertMeaning(s.bindings, env)))
            <==> Distinct(StmtParams(s)) && ConstantsSurvive(s.bindings)
  {
    hide Run, LowerStmt, CleanAllowlist, StoredMeaning, InsertMeaning, ConstantsSurvive, DistinctFields;
    CompiledInsertAppends(cat, s, env, tables, true);
    StoredIsMeantExactly(s.bindings, env);
    var t := ResolveTable(cat, s.table).value.1;
    AppendInjective(tables, t, StoredMeaning(s.bindings, env), InsertMeaning(s.bindings, env));
  }

  lemma AppendInjective(tables: Tables, t: string, a: Row, b: Row)
    ensures Append(tables, t, a) == Append(tables, t, b) <==> a == b
  {
    if Append(tables, t, a) == Append(tables, t, b) {
      var n := |RowsOf(tables, t)|;
      assert Append(tables, t, a)[t][n] == a && Append(tables, t, b)[t][n] == b;
    }
  }

  /** `insert publishers { id: $p, name: $p }` runs to nothing. */
  lemma RepeatedParameterInsertsNothing(cat: Allowlist)
    requires CleanAllowlist(cat) && "public" + "." + "publishers" in cat
    requires {"id", "name"} <= cat["public" + "." + "publishers"].columns
    ensures var s := Insert("publishers", [Binding("id", ParamRef("p")), Binding("name", ParamRef("p"))]);
            && LowerStmt(cat, s).Ok? && Covers(map["p" := "x"], Keys(LowerStmt(cat, s).value.schema))
            && Run(LowerStmt(cat, s).value, map["p" := "x"], map[], true) == Outcome(NOTHING, map[])
  {
    hide Run, CleanAllowlist, LowerStmt, StoredMeaning;
    assert '.' !in "publishers";
    ResolvePlain(cat, "publishers");
    var bs := [Binding("id", ParamRef("p")), Binding("name", ParamRef("p"))];
    var s := Insert("publishers", bs);
    InsertLowers(cat, s);
    NamesOfTwo(bs);
    CompiledInsertAppends(cat, s, map["p" := "x"], map[], true);
    assert StmtParams(s)[0] == StmtParams(s)[1];
  }

  lemma NamesOfTwo(bs: seq<Binding>)
    requires |bs| == 2 && bs[0].rhs.ParamRef? && bs[1].rhs.ParamRef?
    ensures ParamNames(bs) == [bs[0].rhs.name, bs[1].rhs.name]
  {
    assert bs[..1][..0] == [];
    assert ParamNames(bs[..1]) == [] + [bs[0].rhs.name];
  }

  /** `insert publishers { name: 'x' }` stores the text `%s`. */
  lemma ConstantIsStoredAsMarker(cat: Allowlist)
    requires CleanAllowlist(cat) && "public" + "." + "publishers" in cat
    requires {"id", "name"} <= cat["public" + "." + "publishers"].columns
    ensures var s := Insert("publishers", [Binding("name", ConstText("x"))]);
            && LowerStmt(cat, s).Ok? && Covers(map[], Keys(LowerStmt(cat, s).value.schema))
            && Run(LowerStmt(cat, s).value, map[], map[], true)
               == Outcome(ExecResult([], 1), map["publishers" := [map["name" := "%s"]]])
  {
    hide Run, CleanAllowlist, LowerStmt;
    assert '.' !in "publishers";
    ResolvePlain(cat, "publishers");
    var bs := [Binding("name", ConstText("x"))];
    var s := Insert("publishers", bs);
    InsertLowers(cat, s);
    assert bs[..0] == [];
    assert ParamNames(bs) == [] + [];
    var row: Row := map["name" := "%s"];
    assert StoredMeaning(bs, map[]) == map[]["name" := "%s"] == row;
    CompiledInsertAppends(cat, s, map[], map[], true);
    assert RowsOf(map[], "publishers") + [row] == [row];
    assert Append(map[], "publishers", row) == map["publishers" := [row]];
  }

  lemma InsertLowers(cat: Allowlist, s: Stmt)
    requires s.Insert? && ResolveTable(cat, s.table).Ok? && forall i :: 0 <= i < |s.bindings| ==> ResolveColumn(cat, s.table, s.bindings[i].field).Ok?
    ensures LowerStmt(cat, s).Ok?
  {
    ColumnsLower(cat, s.table, Fields(s.bindings));
  }

  lemma {:induction false} ColumnsLower(cat: Allowlist, raw: string, cs: seq<string>)
    requires forall i :: 0 <= i < |cs| ==> ResolveColumn(cat, raw, cs[i]).Ok?
    ensures QuotedColumns(cat, raw, cs).Ok?
  {
    if cs != [] {
      ColumnsLower(cat, raw, cs[1..]);
    }
  }

  // ---------------------------------------------------------------- inserts and reads together

  lemma {:induction false} StoredIsLowerKeyed(bs: seq<Binding>, env: map<string, string>)
    requires CleanFields(bs) && Covers(env, ParamNames(bs))
    ensures LowerKeyed(StoredMeaning(bs, env))
  {
    hide CleanName;
    StoredKeys(bs, env);
    forall k | k in StoredMeaning(bs, env)
      ensures Lower(k) == k
    {
      var i :| 0 <= i < |bs| && bs[i].field == k;
      CleanWord(bs[i].field);
    }
  }

  /** One more row at the end of the table: its share of the result comes last. */
  lemma FilterOneMore(rows: seq<Row>, row: Row, s: Stmt, env: map<string, string>)
    requires s.Read? && CleanStmt(s) && Covers(env, WhereNames(s.where)) && LowerKeyed(row)
    ensures
      var f, p := FilterOf(s.where, env), ProjectionOf(s.columns);
      FilterProject(rows + [row], f, p) ==
      FilterProject(rows, f, p)
      + (if Selected(row, s.where, env) && Columns(row, s.columns) != map[] then [Columns(row, s.columns)] else [])
  {
    hide ProjectRow, Columns;
    assert (rows + [row])[..|rows|] == rows;
    ProjectedCells(row, s.columns);
  }

  /**
   What was inserted is found, in any tables. After a compiled insert without repeated
   parameters, a compiled read of the same table returns what it returned before,
   followed by the new row's share: its projected columns, when the new row matches and
   has any.
   */
  lemma InsertThenRead(cat: Allowlist, ins: Stmt, rd: Stmt, insEnv: map<string, string>, rdEnv: map<string, string>, tables: Tables)
    requires CleanAllowlist(cat) && ins.Insert? && rd.Read? && LowerStmt(cat, ins).Ok? && LowerStmt(cat, rd).Ok?
    requires Covers(insEnv, StmtParams(ins)) && Covers(rdEnv, StmtParams(rd)) && Distinct(StmtParams(ins))
    requires ResolveTable(cat, rd.table) == ResolveTable(cat, ins.table)
    ensures CleanStmt(rd) && Covers(insEnv, Keys(LowerStmt(cat, ins).value.schema)) && Covers(rdEnv, Keys(LowerStmt(cat, rd).value.schema))
    ensures var row := StoredMeaning(ins.bindings, insEnv);
            var after := Run(LowerStmt(cat, ins).value, insEnv, tables, true).tables;
            Run(LowerStmt(cat, rd).value, rdEnv, after, true).result.rows
            == Run(LowerStmt(cat, rd).value, rdEnv, tables, true).result.rows
               + (if Selected(row, rd.where, rdEnv) && Columns(row, rd.columns) != map[] then [Columns(row, rd.columns)] else [])
  {
    hide Run, LowerStmt, CleanAllowlist, StoredMeaning, FilterProject, Distinct, LowerKeyed, ResolveTable, Columns, Selected;
    CompiledInsertAppends(cat, ins, insEnv, tables, true);
    var t := ResolveTable(cat, ins.table).value.1;
    var row := StoredMeaning(ins.bindings, insEnv);
    var after := Append(tables, t, row);
    StoredIsLowerKeyed(ins.bindings, insEnv);
    assert RowsOf(after, t) == RowsOf(tables, t) + [row];
    CompiledReadRuns(cat, rd, rdEnv, tables, true);
    CompiledReadRuns(cat, rd, rdEnv, after, true);
    FilterOneMore(RowsOf(tables, t), row, rd, rdEnv);
  }

  // ---------------------------------------------------------------- updates and deletes

  lemma TrimSqlIsPrefix(q: string)
    requires q != "" && !IsSpace(q[0])
    ensures TrimSql(q) == "" || TrimSql(q)[0] == q[0]
  {
    assert TrimLeft(q) == q;
    TrimIsTrimmed(q);
    TrimRightCuts(q);
    DropIsPrefix(TrimRight(q));
  }

  lemma {:induction false} DropIsPrefix(s: string)
    requires Trimmed(s)
    ensures DropSemicolons(s) == "" || (s != "" && DropSemicolons(s)[0] == s[0])
    decreases |s|
  {
    if s != "" && s[|s| - 1] == ';' {
      var r := s[..|s| - 1];
      TrimIsTrimmed(r);
      TrimRightCuts(r);
      if r != "" {
        assert TrimLeft(r) == r;
      }
      DropIsPrefix(Trim(r));
    }
  }

  /** The executor knows SELECT and INSERT only: a compiled update or delete changes nothing and reports nothing. */
  lemma CompiledWritesDoNothing(cat: Allowlist, s: Stmt, env: map<string, string>, tables: Tables, writable: bool)
    requires CleanAllowlist(cat) && (s.Update? || s.Delete?) && LowerStmt(cat, s).Ok? && Covers(env, StmtParams(s))
    ensures Covers(env, Keys(LowerStmt(cat, s).value.schema))
    ensures Run(LowerStmt(cat, s).value, env, tables, writable) == Outcome(NOTHING, tables)
  {
    hide FlattenEngine, FlattenBridge, LowerStmt, SchemaOf, TrimSql, ParseInsert, Find, CleanAllowlist, TrimRight;
    CompiledFlattens(cat, s);
    LoweredSchema(cat, s);
    SchemaCovered(s, env);
    var q := FlatText(ResolveTable(cat, s.table).value.1, s);
    assert q[0] == 'U' || q[0] == 'D';
    StripTailStart(q);
    UnknownVerb(StripTail(q), tables, OrderedParams(SchemaOf(StmtParams(s)), env), writable);
  }

  lemma StripTailStart(q: string)
    requires q != ""
    ensures StripTail(q) == "" || StripTail(q)[0] == q[0]
  {
    TrimRightCuts(q);
    var n := |TrimRight(q)|;
    if n > 0 {
      TrimRightCuts(TrimRight(q)[..n - 1]);
    }
  }

  lemma UnknownVerb(q: string, tables: Tables, params: seq<string>, writable: bool)
    requires q == "" || q[0] == 'U' || q[0] == 'D'
    ensures Exec(tables, q, params, writable) == Outcome(NOTHING, tables)
  {
    hide TrimSql, ParseInsert, Find, ExecSelect;
    if q != "" {
      TrimSqlIsPrefix(q);
    } else {
      assert TrimSql(q) == "" by {
        TrimSqlOfTrimmed(q);
      }
    }
    var l := Lower(TrimSql(q));
    assert l != "" ==> l[0] == 'u' || l[0] == 'd';
    assert "select"[0] == 's' && "insert"[0] == 'i';
    assert |l| >= 6 ==> l[..6][0] == l[0];
  }
}
