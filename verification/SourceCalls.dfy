/**
 The whole way: liq text compiled to a plan, the plan executed through the bridge on the
 snapshot file, and the answer decoded by the caller.
 */
module SourceCalls {
  import opened Text
  import opened Catalog
  import opened Liq
  import opened Flatten
  import opened Lowering
  import opened Compiler
  import opened Native
  import opened Pipeline
  import opened ReadPipeline
  import opened Meaning
  import opened StdMap
  import opened Snapshot
  import opened NativeEngine
  import opened Transport
  import opened Bridge
  import opened EndToEnd
  import P = LiqParser
  import Q = LiqPrinter

  /** The values as the engine receives them. */
  function ReceivedEnv(env: map<string, string>): map<string, string> {
    map k | k in env :: Received(env[k])
  }

  lemma ReceivedCovers(env: map<string, string>, names: seq<string>)
    requires Covers(env, names)
    ensures Covers(ReceivedEnv(env), names)
  {
    hide Received;
  }

  lemma ReceivedInOrder(d: Schema, env: map<string, string>)
    requires Covers(env, Keys(d))
    ensures Covers(ReceivedEnv(env), Keys(d)) && ReceivedAll(OrderedParams(d, env)) == OrderedParams(d, ReceivedEnv(env))
  {
    hide Received;
    ReceivedCovers(env, Keys(d));
    forall i | 0 <= i < |d|
      ensures d[i].0 in env
    {
      assert Keys(d)[i] == d[i].0 && Keys(d)[i] in Keys(d);
    }
  }

  /** What the caller gets of a result, and what becomes of the file. */
  function CallOf(file: Option<string>, flat: string, o: Outcome, w: Outcome, opens: bool): Called {
    var after := if opens && w.result.affected == 1 then Some(Save(w.tables)) else file;
    var decoded := ReadResult(ResultJson(o.result));
    if Failed(flat, o.result) || decoded.None? then Called(after, Raised(EngineFailed))
    else Called(after, Done(RowsOfCells(decoded.value.0)))
  }

  /** One bridge call of a compiled statement is one run of it on the values that arrive. */
  lemma CallIsRun(file: Option<string>, low: Lowered, env: map<string, string>, opens: bool)
    requires Covers(env, Keys(low.schema))
    ensures Covers(ReceivedEnv(env), Keys(low.schema))
    ensures
      Call(file, low.sql, OrderedParams(low.schema, env), opens) ==
      CallOf(file, FlattenBridge(low.sql), Run(low, ReceivedEnv(env), Load(file), opens),
             Run(low, ReceivedEnv(env), Load(file), true), opens)
  {
    hide Exec, FlattenBridge, FlattenEngine, Transport.ReadParams, DumpList, Load, ReadResult, ResultJson, Failed, RowsOfCells, Save, Received,
         ReceivedEnv, OrderedParams, ReceivedAll, Call;
    var bound := OrderedParams(low.schema, env);
    ReceivedInOrder(low.schema, env);
    ParamsArriveAs(bound);
    CallCases(file, low.sql, bound, opens);
  }

  /** The plan that a compiled statement is registered as. */
  function PlanOf(low: Lowered): Plan {
    Plan(low.sql, low.schema)
  }

  lemma BoundIsOrdered(low: Lowered, env: map<string, string>)
    requires BoundParams(PlanOf(low), env).Done?
    ensures Covers(env, Keys(low.schema)) && BoundParams(PlanOf(low), env).value == OrderedParams(low.schema, env)
  {
    hide Find;
    forall k | k in Keys(low.schema)
      ensures k in env
    {
      assert k in KeySet(low.schema);
    }
  }

  // ---------------------------------------------------------------- reads

  lemma CompiledReadCalls(cat: Allowlist, s: Stmt, env: map<string, string>, file: Option<string>, opens: bool)
    requires CleanAllowlist(cat) && s.Read? && LowerStmt(cat, s).Ok? && Covers(env, StmtParams(s))
    ensures ResolveTable(cat, s.table).Ok? && CleanStmt(s) && Covers(env, Keys(LowerStmt(cat, s).value.schema))
    ensures Covers(ReceivedEnv(env), StmtParams(s))
    ensures
      var low := LowerStmt(cat, s).value;
      var rows := RowsOf(Load(file), ResolveTable(cat, s.table).value.1);
      var meant := ReadMeaning(rows, s, ReceivedEnv(env));
      var shown := FilterProject(rows, FilterOf(s.where, ReceivedEnv(env)), ProjectionOf(s.columns));
      && Call(file, low.sql, OrderedParams(low.schema, env), opens) == Called(file, Answer(shown))
      && (Answer(shown) == Done(shown) <==> AllPlain(shown))
      && (shown == meant <==> AllCaseExact(rows, s, ReceivedEnv(env)))
  {
    hide *;
    ReceivedCovers(env, StmtParams(s));
    var low := LowerStmt(cat, s).value;
    CompiledFlattens(cat, s);
    ReadSchemaCovered(cat, s, env);
    CallIsRun(file, low, env, opens);
    var tables, got := Load(file), ReceivedEnv(env);
    var t := ResolveTable(cat, s.table).value.1;
    CompiledReadRuns(cat, s, got, tables, opens);
    CompiledReadRuns(cat, s, got, tables, true);
    ReadIsSelect(t, s);
    ReadScope(s, got);
    var rows := FilterProject(RowsOf(tables, t), FilterOf(s.where, got), ProjectionOf(s.columns));
    FilterProjectIsMeaning(RowsOf(tables, t), s, got);
    AnswerCases(rows);
    SelectDoesNotFail(FlattenBridge(low.sql), ExecResult(rows, 0));
    CallOfRead(file, FlattenBridge(low.sql), rows, Run(low, got, tables, opens), Run(low, got, tables, true), opens);
  }

  lemma ReadScope(s: Stmt, env: map<string, string>)
    requires s.Read? && CleanStmt(s) && Covers(env, StmtParams(s))
    ensures CleanWhere(s.where) && Covers(env, WhereNames(s.where))
    ensures s.where.Some? ==> s.where.value.rhs.ParamRef? && s.where.value.rhs.name in env
  {
    hide CleanName;
    assert s.where.Some? ==> WhereNames(s.where) == [s.where.value.rhs.name];
  }

  lemma ReadSchemaCovered(cat: Allowlist, s: Stmt, env: map<string, string>)
    requires CleanAllowlist(cat) && LowerStmt(cat, s).Ok? && Covers(env, StmtParams(s))
    ensures Covers(env, Keys(LowerStmt(cat, s).value.schema))
  {
    hide LowerStmt, SchemaOf, CleanAllowlist;
    LoweredSchema(cat, s);
    SchemaCovered(s, env);
  }

  lemma CallOfRead(file: Option<string>, flat: string, rows: seq<Row>, o: Outcome, w: Outcome, opens: bool)
    requires o.result == ExecResult(rows, 0) && w.result.affected == 0 && !Failed(flat, o.result)
    ensures CallOf(file, flat, o, w, opens) == Called(file, Answer(rows))
  {
    hide ReadResult, ResultJson, Failed, RowsOfCells, Save;
  }

  /**
   The text of a read, its clauses in any order, called through the bridge, over any file:
   the file stays, and a plan that is not refused answers with what is decoded of the rows
   shown. Those come through exactly when no key and no value of theirs needs an escape,
   and they are the rows that the read means for the values that arrived exactly when the
   table does not confuse case.
   */
  lemma SourceReadCalled(cat: Allowlist, s: Stmt, clauses: seq<Q.Clause>, env: map<string, string>, file: Option<string>, opens: bool)
    requires CleanAllowlist(cat) && s.Read? && Q.Canonical(s) && LowerStmt(cat, s).Ok? && Covers(env, StmtParams(s))
    requires Q.OneOfEachKind(clauses) && multiset(clauses) == multiset(Q.CanonicalClauses(s))
    requires !P.Forbidden(Q.Print(s)) && !P.Forbidden(Q.ReadText(s.table, clauses))
    ensures ResolveTable(cat, s.table).Ok? && CleanStmt(s) && Covers(ReceivedEnv(env), StmtParams(s))
    ensures
      var low := Compile(cat, Q.ReadText(s.table, clauses));
      var rows := RowsOf(Load(file), ResolveTable(cat, s.table).value.1);
      var shown := FilterProject(rows, FilterOf(s.where, ReceivedEnv(env)), ProjectionOf(s.columns));
      && low.Ok?
      && (var bound := BoundParams(PlanOf(low.value), env);
          Execute(file, PlanOf(low.value), env, opens) ==
          Called(file, if bound.Raised? then Raised(bound.why) else Answer(shown)))
      && (Answer(shown) == Done(shown) <==> AllPlain(shown))
      && (shown == ReadMeaning(rows, s, ReceivedEnv(env)) <==> AllCaseExact(rows, s, ReceivedEnv(env)))
  {
    hide P.Parse, P.Forbidden, LowerStmt, Run, ReadMeaning, CleanAllowlist, Q.PlainClause, P.IsIdent, AllCaseExact, Execute, BoundParams,
         Call, ReceivedEnv, AllPlain, Answer, OrderedParams, FilterProject;
    CompiledReadCalls(cat, s, env, file, opens);
    SourceReadMeansRead(cat, s, clauses, env, Load(file), opens);
    CanonicalIsOneOfEach(s);
    Q.PrintParse(s);
    Q.ClauseOrderIsFree(s.table, Q.CanonicalClauses(s), clauses);
    var low := LowerStmt(cat, s).value;
    ExecuteBound(file, low, env, opens);
  }

  lemma ExecuteBound(file: Option<string>, low: Lowered, env: map<string, string>, opens: bool)
    ensures
      var bound := BoundParams(PlanOf(low), env);
      if bound.Raised? then Execute(file, PlanOf(low), env, opens) == Called(file, Raised(bound.why))
      else
        Covers(env, Keys(low.schema)) &&
        Execute(file, PlanOf(low), env, opens) == Call(file, low.sql, OrderedParams(low.schema, env), opens)
  {
    hide BoundParams, Call;
    if BoundParams(PlanOf(low), env).Done? {
      BoundIsOrdered(low, env);
    }
  }

  // ---------------------------------------------------------------- inserts

  predicate BarlessEnv(names: seq<string>, env: map<string, string>)
    requires Covers(env, names)
  {
    forall i :: 0 <= i < |names| ==> names[i] in names && Barless(env[names[i]])
  }

  /**
   The text of an insert, called through the bridge. A refused plan, a file that cannot be
   written and a parameter used twice each raise and leave the file as it is. Otherwise the
   call reports success, and the next load finds the tables with exactly the row the insert
   means for the values that arrived appended, if and only if the tables were durable,
   there are fields, no value holds a bar, and no constant but `%s` occurs.
   */
  lemma SourceInsertCalled(cat: Allowlist, s: Stmt, env: map<string, string>, file: Option<string>, opens: bool)
    requires CleanAllowlist(cat) && s.Insert? && Q.Canonical(s) && LowerStmt(cat, s).Ok? && Covers(env, StmtParams(s))
    requires !P.Forbidden(Q.Print(s)) && DistinctFields(s.bindings)
    ensures ResolveTable(cat, s.table).Ok? && Covers(ReceivedEnv(env), StmtParams(s))
    ensures
      var low := Compile(cat, Q.Print(s));
      var t := ResolveTable(cat, s.table).value.1;
      && low.Ok?
      && var c, bound := Execute(file, PlanOf(low.value), env, opens), BoundParams(PlanOf(low.value), env);
         if bound.Raised? then c == Called(file, Raised(bound.why))
         else if !opens || !Distinct(StmtParams(s)) then c == Called(file, Raised(EngineFailed))
         else
            && c.answer == Done([])
            && (Load(c.file) == Append(Load(file), t, InsertMeaning(s.bindings, ReceivedEnv(env)))
                <==> Durable(Load(file)) && s.bindings != [] && BarlessEnv(StmtParams(s), env) && ConstantsSurvive(s.bindings))
  {
    hide P.Parse, P.Forbidden, LowerStmt, Run, CleanAllowlist, InsertMeaning, StoredMeaning, DistinctFields, ConstantsSurvive, Distinct,
         Q.Canonical, Execute, BoundParams, Call, ReceivedEnv, OrderedParams, Durable, BarlessEnv, Load;
    PrintedCompiles(cat, s);
    ReceivedCovers(env, StmtParams(s));
    ResolvesInsert(cat, s);
    var low := LowerStmt(cat, s).value;
    ExecuteBound(file, low, env, opens);
    if BoundParams(PlanOf(low), env).Done? {
      CompiledInsertCalls(cat, s, env, file, opens);
      StoredComesBack(file, ResolveTable(cat, s.table).value.1, s.bindings, env);
    }
  }

  lemma ResolvesInsert(cat: Allowlist, s: Stmt)
    requires CleanAllowlist(cat) && LowerStmt(cat, s).Ok?
    ensures ResolveTable(cat, s.table).Ok? && CleanStmt(s) && CleanName(ResolveTable(cat, s.table).value.1)
  {
    hide *;
    CompiledFlattens(cat, s);
  }

  lemma CompiledInsertCalls(cat: Allowlist, s: Stmt, env: map<string, string>, file: Option<string>, opens: bool)
    requires CleanAllowlist(cat) && s.Insert? && LowerStmt(cat, s).Ok? && Covers(env, StmtParams(s))
    requires Covers(env, Keys(LowerStmt(cat, s).value.schema))
    ensures ResolveTable(cat, s.table).Ok? && Covers(ReceivedEnv(env), StmtParams(s))
    ensures
      var low, t := LowerStmt(cat, s).value, ResolveTable(cat, s.table).value.1;
      var c := Call(file, low.sql, OrderedParams(low.schema, env), opens);
      if !opens || !Distinct(StmtParams(s)) then c == Called(file, Raised(EngineFailed))
      else
        && c.answer == Done([])
        && Load(c.file) == Replay(Save(Append(Load(file), t, StoredMeaning(s.bindings, ReceivedEnv(env)))))
  {
    hide *;
    ReceivedCovers(env, StmtParams(s));
    var low := LowerStmt(cat, s).value;
    CallIsRun(file, low, env, opens);
    CompiledInsertAppends(cat, s, ReceivedEnv(env), Load(file), opens);
    CompiledInsertAppends(cat, s, ReceivedEnv(env), Load(file), true);
    CompiledFlattens(cat, s);
    var t := ResolveTable(cat, s.table).value.1;
    InsertIsNoSelect(t, s);
    InsertFails(FlattenBridge(low.sql), true);
    InsertFails(FlattenBridge(low.sql), false);
    NothingIsEmpty();
    NoRowsDecode(1);
    var w := Run(low, ReceivedEnv(env), Load(file), true);
    if opens && Distinct(StmtParams(s)) {
      CallOfInsert(file, FlattenBridge(low.sql), w);
    } else {
      CallOfFailure(file, FlattenBridge(low.sql), Run(low, ReceivedEnv(env), Load(file), opens), w, opens);
    }
  }

  lemma NothingIsEmpty()
    ensures NOTHING == ExecResult([], 0)
  {
  }

  lemma CallOfFailure(file: Option<string>, flat: string, o: Outcome, w: Outcome, opens: bool)
    requires Failed(flat, o.result) && (opens ==> w.result.affected != 1)
    ensures CallOf(file, flat, o, w, opens) == Called(file, Raised(EngineFailed))
  {
    hide ReadResult, ResultJson, Failed, RowsOfCells, Save;
  }

  lemma CallOfInsert(file: Option<string>, flat: string, o: Outcome)
    requires o.result == ExecResult([], 1) && !Failed(flat, o.result)
    requires ReadResult(ResultJson(o.result)).Some? && RowsOfCells(ReadResult(ResultJson(o.result)).value.0) == []
    ensures CallOf(file, flat, o, o, true).answer == Done([])
    ensures Load(CallOf(file, flat, o, o, true).file) == Replay(Save(o.tables))
  {
    hide ReadResult, ResultJson, Failed, RowsOfCells, Save, Replay;
  }

  lemma LoadedTables(file: Option<string>)
    ensures Readable(Load(file))
  {
    hide Replay;
    if file.Some? {
      LoadedIsReadable(file.value);
    }
  }

  /** The cells of the row that a lowered insert stores, and of the row it means. */
  lemma StoredCells(bs: seq<Binding>, env: map<string, string>, i: nat)
    requires i < |bs| && DistinctFields(bs) && Covers(env, ParamNames(bs))
    ensures Covers(ReceivedEnv(env), ParamNames(bs))
    ensures
      var stored, meant := StoredMeaning(bs, ReceivedEnv(env)), InsertMeaning(bs, ReceivedEnv(env));
      var f := bs[i].field;
      && f in stored && f in meant
      && (bs[i].rhs.ParamRef? ==> bs[i].rhs.name in env && stored[f] == meant[f] == Received(env[bs[i].rhs.name]))
      && (!bs[i].rhs.ParamRef? ==> stored[f] == "%s")
  {
    hide StoredMeaning, InsertMeaning, ParamNames, DistinctFields, Received;
    ReceivedCovers(env, ParamNames(bs));
    StoredField(bs, ReceivedEnv(env), i);
  }

  lemma {:induction false} NameIsUsed(bs: seq<Binding>, name: string) returns (i: nat)
    requires name in ParamNames(bs)
    ensures i < |bs| && bs[i].rhs.ParamRef? && bs[i].rhs.name == name
  {
    var n := |bs| - 1;
    if name in ParamNames(bs[..n]) {
      i := NameIsUsed(bs[..n], name);
    } else {
      i := n;
    }
  }

  lemma {:induction false} UsedIsNamed(bs: seq<Binding>, i: nat)
    requires i < |bs| && bs[i].rhs.ParamRef?
    ensures bs[i].rhs.name in ParamNames(bs)
  {
    if i < |bs| - 1 {
      UsedIsNamed(bs[..|bs| - 1], i);
    }
  }

  /** The stored row is one line, is read as a row if it has fields, and is clean exactly without bars. */
  lemma StoredRowExactly(bs: seq<Binding>, env: map<string, string>)
    requires CleanFields(bs) && DistinctFields(bs) && Covers(env, ParamNames(bs))
    ensures Covers(ReceivedEnv(env), ParamNames(bs))
    ensures
      var stored, meant := StoredMeaning(bs, ReceivedEnv(env)), InsertMeaning(bs, ReceivedEnv(env));
      && OneLineRow(stored)
      && (BarlessEnv(ParamNames(bs), env) ==> CleanCells(stored))
      && (CleanCells(meant) ==> BarlessEnv(ParamNames(bs), env))
      && (ReadAsRow(stored) <==> bs != [])
  {
    hide StoredMeaning, InsertMeaning, ParamNames, DistinctFields, Received, ReceivedEnv, CleanName, CleanCell, Barless, StartsWith,
         LexLeq;
    ReceivedCovers(env, ParamNames(bs));
    var stored, meant := StoredMeaning(bs, ReceivedEnv(env)), InsertMeaning(bs, ReceivedEnv(env));
    StoredKeys(bs, ReceivedEnv(env));
    forall k | k in stored
      ensures '\n' !in k && '\n' !in stored[k] && !StartsWith(k, "#") && !StartsWith(k, TABLE_MARK)
      ensures BarlessEnv(ParamNames(bs), env) ==> CleanCell(k, stored[k])
    {
      var i :| 0 <= i < |bs| && bs[i].field == k;
      StoredCellExactly(bs, env, i);
    }
    forall i | 0 <= i < |ParamNames(bs)| && CleanCells(meant)
      ensures Barless(env[ParamNames(bs)[i]])
    {
      var j := NameIsUsed(bs, ParamNames(bs)[i]);
      StoredCells(bs, env, j);
      assert CleanCell(bs[j].field, meant[bs[j].field]);
      MeantIsBarless(bs[j].field, env[ParamNames(bs)[i]]);
    }
    if bs != [] {
      StoredCells(bs, env, 0);
    } else {
    }
  }

  lemma MeantIsBarless(k: string, v: string)
    requires CleanCell(k, Received(v))
    ensures Barless(v)
  {
    hide Received;
    ArrivesExactly(v);
  }

  lemma StoredCellExactly(bs: seq<Binding>, env: map<string, string>, i: nat)
    requires CleanFields(bs) && DistinctFields(bs) && Covers(env, ParamNames(bs)) && i < |bs|
    ensures Covers(ReceivedEnv(env), ParamNames(bs)) && bs[i].field in StoredMeaning(bs, ReceivedEnv(env))
    ensures
      var k, v := bs[i].field, StoredMeaning(bs, ReceivedEnv(env))[bs[i].field];
      && '\n' !in k && '\n' !in v && !StartsWith(k, "#") && !StartsWith(k, TABLE_MARK)
      && (BarlessEnv(ParamNames(bs), env) ==> CleanCell(k, v))
  {
    hide StoredMeaning, InsertMeaning, ParamNames, DistinctFields, Received, ReceivedEnv, CleanName, StartsWith, CleanCell, Barless;
    StoredCells(bs, env, i);
    var k, v := bs[i].field, StoredMeaning(bs, ReceivedEnv(env))[bs[i].field];
    CleanNameIsPlain(k);
    MarkerIsBarless();
    if bs[i].rhs.ParamRef? {
      UsedIsNamed(bs, i);
      ArrivesExactly(env[bs[i].rhs.name]);
    }
    CleanCellOf(k, v);
  }

  lemma MarkerIsBarless()
    ensures Barless("%s") && '\n' !in "%s"
  {
  }

  /** What comes back is the meant row exactly when the stored one is it and is durable. */
  lemma StoredComesBack(file: Option<string>, t: string, bs: seq<Binding>, env: map<string, string>)
    requires CleanName(t) && CleanFields(bs) && DistinctFields(bs) && Covers(env, ParamNames(bs))
    ensures Covers(ReceivedEnv(env), ParamNames(bs))
    ensures
      var stored, meant := StoredMeaning(bs, ReceivedEnv(env)), InsertMeaning(bs, ReceivedEnv(env));
      Replay(Save(Append(Load(file), t, stored))) == Append(Load(file), t, meant)
      <==> Durable(Load(file)) && bs != [] && BarlessEnv(ParamNames(bs), env) && ConstantsSurvive(bs)
  {
    hide *;
    ReceivedCovers(env, ParamNames(bs));
    var stored, meant := StoredMeaning(bs, ReceivedEnv(env)), InsertMeaning(bs, ReceivedEnv(env));
    var tables := Load(file);
    LoadedTables(file);
    CleanNameIsPlain(t);
    CleanNameNonEmpty(t);
    StoredRowExactly(bs, env);
    StoredIsMeantExactly(bs, ReceivedEnv(env));
    AppendDurableExactly(tables, t, stored);
    DurableRowIs(stored);
    SnapshotRoundTrip(Append(tables, t, stored));
    AppendInjective(tables, t, stored, meant);
    if Replay(Save(Append(tables, t, stored))) == Append(tables, t, meant) {
      AppendComesBack(tables, t, stored, meant);
      AppendedIsRead(tables, t, stored, meant);
    }
  }

  lemma DurableRowIs(row: Row)
    ensures DurableRow(row) <==> CleanCells(row) && ReadAsRow(row)
  {
  }

  /** What comes back as a row was printed as one. */
  lemma AppendedIsRead(tables: Tables, t: string, row: Row, other: Row)
    requires Readable(tables) && '\n' !in t && OneLineRow(row)
    requires Replay(Save(Append(tables, t, row))) == Append(tables, t, other)
    ensures ReadAsRow(row)
  {
    hide Save, Replay, ReadAsRow, CleanCells, OneLineRow, Total;
    var after, back := Append(tables, t, row), Append(tables, t, other);
    OneLineAppend(tables, t, row);
    TotalUpdate(tables, t, after[t]);
    TotalUpdate(tables, t, back[t]);
    AllRowsComeBack(after);
    assert after[t][|RowsOf(tables, t)|] == row;
    assert AllReadAsRows(after[t]);
  }
}
