/**
 The plan that asks for one version of a package. It compares two columns, and the
 executor reads only the first comparison.
 */
module RegistryVersionPlan {
  import opened Text
  import opened Catalog
  import opened Liq
  import opened Flatten
  import opened Lowering
  import opened Compiler
  import opened Native
  import opened Pipeline
  import opened ReadPipeline
  import opened Snapshot
  import opened NativeEngine
  import opened Transport
  import opened Bridge
  import opened Registry
  import opened RegistryStore
  import opened RegistryPlans
  import opened ReadOrder

  // ---------------------------------------------------------------- a reading plan with two comparisons

  function BothSql(t: string, columns: seq<string>, a: string, b: string, limit: Option<nat>): string {
    SelectSql(t, columns, a, None) + (" AND " + b + " = ") + "$2" + FlatLimit(limit)
  }

  function BothPlan(t: string, columns: seq<string>, a: string, b: string, limit: Option<nat>): Plan {
    Plan(BothSql(t, columns, a, b, limit), [(a, ParamType(a)), (b, ParamType(b))])
  }

  function BothQuery(t: string, columns: seq<string>, a: string, b: string, limit: Option<nat>): Query {
    Query(t, Some(columns), Some(Predicate(a, ParamRef(a))), ["AND", b, "=", "?"], limit)
  }

  const BY_VERSION_VIEW :=
    ["id", "package_id", "version", "tree_digest", "proof_digest", "coverage_pct", "publisher_id", "published_at", "yanked"]

  function VersionByPackageAndVersion(): Plan {
    BothPlan("package_versions", BY_VERSION_VIEW, "package_id", "version", Some(1))
  }

  lemma AndWords(b: string)
    requires CleanName(b)
    ensures Join(["AND", b, "=", "?"], " ") == "AND " + b + " = ?" && AllPassed(["AND", b, "=", "?"]) && NoSemicolon("?")
  {
    hide Join, CleanName, Lower, IsWord;
    JoinFour("AND", b, "=", "?");
    assert "AND" + " " == "AND " && "=" + " " + "?" == "= ?" && " " + "= ?" == " = ?";
    Assoc3("AND ", b, " = ?");
    Assoc3(b, " ", "= ?");
    ComparisonPasses(b);
    AndIsPassed();
    assert ["AND"] + [b, "=", "?"] == ["AND", b, "=", "?"];
  }

  lemma AndIsPassed()
    ensures Passed("AND")
  {
    assert |"and"| == 3 && |"where"| == 5 && |"limit"| == 5;
  }

  /** The words of the text behind both flatteners. */
  lemma BothWords(t: string, columns: seq<string>, a: string, b: string, limit: Option<nat>)
    requires CleanName(b)
    ensures Join(QueryWords(BothQuery(t, columns, a, b, limit)), " ") ==
            FlatText(t, ReadOf(t, columns, a, None)) + (" AND " + b + " = ") + "?" + FlatLimit(limit)
  {
    hide Join, CleanName, FlatText, AllPassed, FlatLimit, ProjectionWords;
    var r, one := BothQuery(t, columns, a, b, limit), QueryOf(t, ReadOf(t, columns, a, None));
    var head := HeadWords(r) + WhereWords(r.where);
    ReadTextIsWords(t, ReadOf(t, columns, a, None));
    OneComparison(one);
    AndWords(b);
    LimitClauseText(limit);
    var x := FlatText(t, ReadOf(t, columns, a, None));
    assert " " + ("AND " + b + " = ?") == " AND " + b + " = " + "?";
    JoinClause(head, r.more, " AND " + b + " = " + "?");
    JoinClause(head + r.more, LimitWords(limit), FlatLimit(limit));
    Assoc3(x, " AND " + b + " = ", "?");
  }

  lemma OneComparison(r: Query)
    requires r.more == [] && r.limit.None?
    ensures QueryWords(r) == HeadWords(r) + WhereWords(r.where) && HeadWords(r) + WhereWords(r.where) != []
  {
  }

  lemma BothFlattens(t: string, columns: seq<string>, a: string, b: string, limit: Option<nat>)
    requires CleanName(t) && CleanDistinct(columns) && CleanName(a) && CleanName(b)
    ensures var sql, q := BothSql(t, columns, a, b, limit), Join(QueryWords(BothQuery(t, columns, a, b, limit)), " ");
            FlattenBridge(sql) == q && FlattenEngine(FlattenBridge(sql)) == StripTail(q)
  {
    hide Join, CleanName, CleanDistinct, FlatText, SelectSql, FlatLimit, QueryWords, BothQuery, Shows, LimitPieces, SelectPieces, Decimal,
         FlattenBridge, FlattenEngine, StripTail;
    var mid := " AND " + b + " = ";
    var end := [Lit(mid)] + ([Slot(2)] + LimitPieces(limit));
    SelectShows(t, columns, a, None);
    NameAvoids(b);
    CleanTextIsGood(mid);
    ShowsSlot(2);
    ShowsLimit(limit);
    OneDigitTwo();
    Shows3([Lit(mid)], [Slot(2)], LimitPieces(limit), mid, "$2", FlatLimit(limit), mid, "?", FlatLimit(limit));
    var x, y := SelectSql(t, columns, a, None), FlatText(t, ReadOf(t, columns, a, None));
    ShowsConcat(SelectPieces(t, columns, a, None), end, x, mid + "$2" + FlatLimit(limit), y, mid + "?" + FlatLimit(limit));
    Assoc3(x, mid + "$2", FlatLimit(limit));
    Assoc3(x, mid, "$2");
    Assoc3(y, mid + "?", FlatLimit(limit));
    Assoc3(y, mid, "?");
    BothWords(t, columns, a, b, limit);
    ShownFlattens(SelectPieces(t, columns, a, None) + end, BothSql(t, columns, a, b, limit),
                  Join(QueryWords(BothQuery(t, columns, a, b, limit)), " "));
  }

  lemma OneDigitTwo()
    ensures "$" + Decimal(2) == "$2"
  {
  }

  lemma ShownFlattens(ps: seq<Piece>, sql: string, q: string)
    requires Shows(ps, sql, q)
    ensures FlattenBridge(sql) == q && FlattenEngine(FlattenBridge(sql)) == StripTail(q)
  {
    hide FlattenBridge, FlattenEngine, StripTail;
    FlatteningIsHomomorphic(ps);
  }

  // ---------------------------------------------------------------- what the plan answers

  /**
   Whatever the second comparison asks for: the plan refuses a value that its text contains,
   or answers with all rows that meet the first comparison.
   */
  lemma SecondComparisonIsIgnored(file: Option<string>, t: string, columns: seq<string>, a: string, b: string, limit: Option<nat>,
                                  v: string, w: string, opens: bool)
    requires CleanName(t) && CleanDistinct(columns) && CleanName(a) && CleanName(b) && a != b
    ensures
      var plan := BothPlan(t, columns, a, b, limit);
      var refused := Find(plan.sql, v).Some? || Find(plan.sql, w).Some?;
      var rows := FilterProject(RowsOf(Load(file), t), Equals(a, Received(v)), Some(columns));
      Execute(file, plan, map[a := v, b := w], opens) ==
      Called(file, if refused then Raised(ParameterMismatch) else Answer(rows))
  {
    assert columns != [];
    hide *;
    var plan := BothPlan(t, columns, a, b, limit);
    BothFlattens(t, columns, a, b, limit);
    BothIsClean(t, columns, a, b, limit);
    BoundBoth(plan, a, b, v, w);
    CallQuery(file, plan.sql, BothQuery(t, columns, a, b, limit), [v, w], opens);
    ExecuteCases(file, plan, map[a := v, b := w], opens);
    BothReceived(v, w);
  }

  lemma BothReceived(v: string, w: string)
    ensures ReceivedAll([v, w])[0] == Received(v)
  {
  }

  lemma BothIsClean(t: string, columns: seq<string>, a: string, b: string, limit: Option<nat>)
    requires CleanName(t) && CleanDistinct(columns) && CleanName(a) && CleanName(b)
    ensures var r := BothQuery(t, columns, a, b, limit);
            && CleanQuery(r) && r.where.Some? && r.where.value.column == a && r.table == t
            && ProjectionOf(r.columns) == Some(columns)
    ensures var plan := BothPlan(t, columns, a, b, limit);
            plan.sql == BothSql(t, columns, a, b, limit) && plan.schema == [(a, ParamType(a)), (b, ParamType(b))]
  {
    hide CleanName, AllPassed, BothSql;
    AndWords(b);
  }

  lemma BoundBoth(plan: Plan, a: string, b: string, v: string, w: string)
    requires plan.schema == [(a, ParamType(a)), (b, ParamType(b))] && a != b
    ensures BoundParams(plan, map[a := v, b := w]) ==
            if Find(plan.sql, v).Some? || Find(plan.sql, w).Some? then Raised(ParameterMismatch) else Done([v, w])
  {
    hide Find;
    var params := map[a := v, b := w];
    assert Keys(plan.schema) == [a, b];
    assert params[a] == v && params[b] == w;
    if Find(plan.sql, v).None? && Find(plan.sql, w).None? {
      assert OrderedParams(plan.schema, params) == [v, w];
    }
  }

  // ---------------------------------------------------------------- what it was asked for

  /** The rows that meet both comparisons, projected. */
  function BothRows(rows: seq<Row>, f: Filter, g: Filter, columns: Projection): seq<Row> {
    if rows == [] then []
    else
      var n := |rows| - 1;
      var kept := ProjectRow(rows[n], columns);
      BothRows(rows[..n], f, g, columns) + (if Matches(rows[n], f) && Matches(rows[n], g) && kept != map[] then [kept] else [])
  }

  /** Every row that meets the first comparison meets the second. */
  predicate Implied(rows: seq<Row>, f: Filter, g: Filter) {
    forall i :: 0 <= i < |rows| && Matches(rows[i], f) ==> Matches(rows[i], g)
  }

  lemma {:induction false} BothRowsAre(rows: seq<Row>, a: string, v: string, g: Filter, columns: seq<string>)
    requires CleanName(a) && a in columns
    ensures
      var f := Equals(a, v);
      var all, both := FilterProject(rows, f, Some(columns)), BothRows(rows, f, g, Some(columns));
      |both| <= |all| && (|both| == |all| <==> Implied(rows, f, g)) && (|both| == |all| ==> both == all)
  {
    hide Lower, CleanName;
    if rows != [] {
      var n := |rows| - 1;
      BothRowsAre(rows[..n], a, v, g, columns);
      CleanWord(a);
      if Matches(rows[n], Equals(a, v)) {
        assert a in ProjectRow(rows[n], Some(columns));
      }
      assert Implied(rows, Equals(a, v), g) <==>
             Implied(rows[..n], Equals(a, v), g) && (Matches(rows[n], Equals(a, v)) ==> Matches(rows[n], g)) by {
        assert forall i :: 0 <= i < n ==> rows[..n][i] == rows[i];
      }
    }
  }

  /**
   The plan answers with the row of one version of one package, as asked, if and only if
   the package has at most one version and that is the one asked for.
   */
  lemma VersionIsAnsweredExactly(file: Option<string>, pkg: string, version: string, opens: bool)
    ensures
      var plan := VersionByPackageAndVersion();
      var rows := RowsOf(Load(file), "package_versions");
      var f, g := Equals("package_id", Received(pkg)), Equals("version", Received(version));
      var all := FilterProject(rows, f, Some(BY_VERSION_VIEW));
      var asked := Limited(Some(1), BothRows(rows, f, g, Some(BY_VERSION_VIEW)));
      && Execute(file, plan, map["package_id" := pkg, "version" := version], opens) ==
         Called(file, if Find(plan.sql, pkg).Some? || Find(plan.sql, version).Some? then Raised(ParameterMismatch) else Answer(all))
      && (all == asked <==> |all| <= 1 && Implied(rows, f, g))
  {
    hide Execute, Load, Find, FilterProject, BothRows, Implied, Received, CleanName, Answer, BothSql;
    var rows := RowsOf(Load(file), "package_versions");
    TableNamesAreClean();
    ShortNamesAreClean();
    LongNamesAreClean();
    SecondComparisonIsIgnored(file, "package_versions", BY_VERSION_VIEW, "package_id", "version", Some(1), pkg, version, opens);
    BothRowsAre(rows, "package_id", Received(pkg), Equals("version", Received(version)), BY_VERSION_VIEW);
  }

  /** The plan text, word by word as the plan table has it. */
  lemma VersionByPackageAndVersionText()
    ensures VersionByPackageAndVersion().sql ==
            Join(["SELECT"] +
                 ["id,", "package_id,", "version,", "tree_digest,", "proof_digest,", "coverage_pct,", "publisher_id,",
                  "published_at,", "yanked"] +
                 ["FROM", "package_versions", "WHERE", "package_id", "=", "$1"] +
                 ["AND", "version", "=", "$2", "LIMIT", "1"], " ")
  {
    hide Join, CommaWords, SelectSql, Decimal;
    var list := ["id,", "package_id,", "version,", "tree_digest,", "proof_digest,", "coverage_pct,", "publisher_id,",
                 "published_at,", "yanked"];
    CommaWordsAre(BY_VERSION_VIEW, list);
    SelectWords("package_versions", BY_VERSION_VIEW, "package_id", None);
    OneDigit();
    var head := ["SELECT"] + list + ["FROM", "package_versions", "WHERE", "package_id", "=", "$1"];
    assert head + [] == head;
    JoinConcat(head, ["AND", "version", "=", "$2", "LIMIT", "1"], " ");
    AndVersionText(SelectSql("package_versions", BY_VERSION_VIEW, "package_id", None));
  }

  lemma AndVersionText(x: string)
    ensures x + " " + Join(["AND", "version", "=", "$2", "LIMIT", "1"], " ") == x + " AND version = " + "$2" + " LIMIT 1"
  {
    hide Join;
    var more := ["AND", "version", "=", "$2"] + ["LIMIT", "1"];
    JoinFour("AND", "version", "=", "$2");
    JoinTwo("LIMIT", "1");
    JoinConcat(["AND", "version", "=", "$2"], ["LIMIT", "1"], " ");
    assert more == ["AND", "version", "=", "$2", "LIMIT", "1"];
    assert " " + Join(more, " ") == " AND version = " + "$2" + " LIMIT 1";
    Assoc4(x, " AND version = ", "$2", " LIMIT 1");
    Assoc3(" AND version = ", "$2", " LIMIT 1");
    Assoc3(x, " ", Join(more, " "));
  }
}
