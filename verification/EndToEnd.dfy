/** From liq text to the rows the engine returns: parser, compiler, flatteners and executor in one statement. */
module EndToEnd {
  import opened Text
  import opened Catalog
  import opened Liq
  import opened Lowering
  import opened Compiler
  import opened Native
  import opened Pipeline
  import opened Meaning
  import P = LiqParser
  import Q = LiqPrinter

  /** `compile`, without plan id and IR. */
  function Compile(cat: Allowlist, source: string): Result<Lowered> {
    var s := P.Parse(source);
    if s.None? then CompileError(source) else LowerStmt(cat, s.value)
  }

  /** The printed form of a statement compiles to what the statement lowers to. */
  lemma PrintedCompiles(cat: Allowlist, s: Stmt)
    requires Q.Canonical(s) && !P.Forbidden(Q.Print(s))
    ensures Compile(cat, Q.Print(s)) == LowerStmt(cat, s)
  {
    hide P.Parse, P.Forbidden, LowerStmt;
    Q.PrintParse(s);
  }

  /**
   The text of a read, however its clauses are ordered, returns the rows the read means,
   in insertion order, and stores nothing, exactly for tables that do not confuse case.
   */
  lemma SourceReadMeansRead(cat: Allowlist, s: Stmt, clauses: seq<Q.Clause>, env: map<string, string>, tables: Tables,
                            writable: bool)
    requires CleanAllowlist(cat) && s.Read? && Q.Canonical(s) && LowerStmt(cat, s).Ok? && Covers(env, StmtParams(s))
    requires Q.OneOfEachKind(clauses) && multiset(clauses) == multiset(Q.CanonicalClauses(s))
    requires !P.Forbidden(Q.Print(s)) && !P.Forbidden(Q.ReadText(s.table, clauses))
    ensures ResolveTable(cat, s.table).Ok? && CleanStmt(s)
    ensures
      var low := Compile(cat, Q.ReadText(s.table, clauses));
      var t := ResolveTable(cat, s.table).value.1;
      && low.Ok? && Covers(env, Keys(low.value.schema))
      && (Run(low.value, env, tables, writable)
          == Outcome(ExecResult(ReadMeaning(RowsOf(tables, t), s, env), 0), Touch(tables, t))
          <==> AllCaseExact(RowsOf(tables, t), s, env))
  {
    hide AllCaseExact, P.Parse, P.Forbidden, LowerStmt, Run, ReadMeaning, CleanAllowlist, Q.PlainClause, P.IsIdent;
    CompiledReadMeansRead(cat, s, env, tables, writable);
    CanonicalIsOneOfEach(s);
    Q.PrintParse(s);
    Q.ClauseOrderIsFree(s.table, Q.CanonicalClauses(s), clauses);
  }

  lemma CanonicalIsOneOfEach(s: Stmt)
    requires s.Read?
    ensures Q.OneOfEachKind(Q.CanonicalClauses(s))
    ensures Q.Print(s) == Q.ReadText(s.table, Q.CanonicalClauses(s))
  {
    hide Q.ClauseTokens;
  }

  /** The text of an insert stores exactly the row it means, when no parameter repeats and no constant but `%s` occurs. */
  lemma SourceInsertMeansInsert(cat: Allowlist, s: Stmt, env: map<string, string>, tables: Tables)
    requires CleanAllowlist(cat) && s.Insert? && Q.Canonical(s) && LowerStmt(cat, s).Ok? && Covers(env, StmtParams(s))
    requires !P.Forbidden(Q.Print(s)) && DistinctFields(s.bindings)
    ensures ResolveTable(cat, s.table).Ok?
    ensures
      var low := Compile(cat, Q.Print(s));
      && low.Ok? && Covers(env, Keys(low.value.schema))
      && (Run(low.value, env, tables, true)
          == Outcome(ExecResult([], 1), Append(tables, ResolveTable(cat, s.table).value.1, InsertMeaning(s.bindings, env)))
          <==> Distinct(StmtParams(s)) && ConstantsSurvive(s.bindings))
  {
    hide P.Parse, P.Forbidden, LowerStmt, Run, CleanAllowlist, InsertMeaning, DistinctFields, ConstantsSurvive, Distinct, Q.Canonical;
    PrintedCompiles(cat, s);
    CompiledInsertMeansInsertExactly(cat, s, env, tables);
  }
}
