/**
 ORDER BY and LIMIT as their clauses read, against the executor, which applies neither:
 exactly which tables make no difference.
 */
module ReadOrder {
  import opened Text
  import opened Catalog
  import opened Liq
  import opened Lowering
  import opened Compiler
  import opened Native
  import opened Pipeline
  import opened ReadPipeline
  import opened StdMap
  import opened Meaning

  // ---------------------------------------------------------------- the order of rows

  /** A cell as the order clause sees it; `None` when the row lacks the column. */
  type Key = Option<string>

  /** Any way to compare cells: as text, as numbers, with missing cells first or last. */
  type Comparison = (Key, Key) -> bool

  ghost predicate Preorder(leq: Comparison) {
    && (forall a, b :: leq(a, b) || leq(b, a))
    && (forall a, b, c :: leq(a, b) && leq(b, c) ==> leq(a, c))
  }

  function KeyIn(row: Row, column: string): Key {
    if column in row then Some(row[column]) else None
  }

  /** The first row may stand before the second. */
  predicate Before(leq: Comparison, o: Ordering, a: Row, b: Row) {
    if o.desc then leq(KeyIn(b, o.column), KeyIn(a, o.column)) else leq(KeyIn(a, o.column), KeyIn(b, o.column))
  }

  predicate InOrder(leq: Comparison, o: Ordering, rows: seq<Row>) {
    forall i, j :: 0 <= i < j < |rows| ==> Before(leq, o, rows[i], rows[j])
  }

  function Insert(leq: Comparison, o: Ordering, row: Row, rows: seq<Row>): seq<Row> {
    if rows == [] then [row]
    else if Before(leq, o, row, rows[0]) then [row] + rows
    else [rows[0]] + Insert(leq, o, row, rows[1..])
  }

  /** The rows in order; rows that compare alike stay in theirs. */
  function Sort(leq: Comparison, o: Ordering, rows: seq<Row>): seq<Row> {
    if rows == [] then [] else Insert(leq, o, rows[0], Sort(leq, o, rows[1..]))
  }

  lemma BeforeIsPreorder(leq: Comparison, o: Ordering, a: Row, b: Row, c: Row)
    requires Preorder(leq)
    ensures Before(leq, o, a, b) || Before(leq, o, b, a)
    ensures Before(leq, o, a, b) && Before(leq, o, b, c) ==> Before(leq, o, a, c)
  {
  }

  lemma {:induction false} InsertMembers(leq: Comparison, o: Ordering, row: Row, rows: seq<Row>)
    ensures multiset(Insert(leq, o, row, rows)) == multiset([row]) + multiset(rows)
  {
    hide Before;
    if rows == [] {
      assert Insert(leq, o, row, rows) == [row];
    } else if Before(leq, o, row, rows[0]) {
    } else {
      var more := Insert(leq, o, row, rows[1..]);
      InsertMembers(leq, o, row, rows[1..]);
      assert rows == [rows[0]] + rows[1..];
    }
  }

  lemma {:induction false} SortPermutes(leq: Comparison, o: Ordering, rows: seq<Row>)
    ensures multiset(Sort(leq, o, rows)) == multiset(rows)
  {
    if rows != [] {
      SortPermutes(leq, o, rows[1..]);
      InsertMembers(leq, o, rows[0], Sort(leq, o, rows[1..]));
      assert rows == [rows[0]] + rows[1..];
    }
  }

  lemma {:induction false} InsertKeepsOrder(leq: Comparison, o: Ordering, row: Row, rows: seq<Row>)
    requires Preorder(leq) && InOrder(leq, o, rows)
    ensures InOrder(leq, o, Insert(leq, o, row, rows))
  {
    hide Before, Preorder;
    if rows == [] {
    } else if Before(leq, o, row, rows[0]) {
      forall j | 0 <= j < |rows|
        ensures Before(leq, o, row, rows[j])
      {
        BeforeIsPreorder(leq, o, row, rows[0], rows[j]);
      }
    } else {
      InsertKeepsOrder(leq, o, row, rows[1..]);
      var more := Insert(leq, o, row, rows[1..]);
      InsertMembers(leq, o, row, rows[1..]);
      BeforeIsPreorder(leq, o, row, rows[0], rows[0]);
      forall j | 0 <= j < |more|
        ensures Before(leq, o, rows[0], more[j])
      {
        assert more[j] in multiset(more);
        if more[j] != row {
          assert more[j] in rows[1..];
          var k :| 0 <= k < |rows[1..]| && rows[1..][k] == more[j];
          assert rows[k + 1] == more[j];
        }
      }
    }
  }

  lemma {:induction false} SortIsInOrder(leq: Comparison, o: Ordering, rows: seq<Row>)
    requires Preorder(leq)
    ensures InOrder(leq, o, Sort(leq, o, rows))
  {
    hide Before, Preorder;
    if rows != [] {
      SortIsInOrder(leq, o, rows[1..]);
      InsertKeepsOrder(leq, o, rows[0], Sort(leq, o, rows[1..]));
    }
  }

  /** Rows that compare alike with a given one, in the order they come. */
  function Alike(leq: Comparison, o: Ordering, rows: seq<Row>, like: Row): seq<Row> {
    if rows == [] then []
    else
      (if Before(leq, o, rows[0], like) && Before(leq, o, like, rows[0]) then [rows[0]] else []) + Alike(leq, o, rows[1..], like)
  }

  lemma {:induction false} InsertIsStable(leq: Comparison, o: Ordering, row: Row, rows: seq<Row>, like: Row)
    requires Preorder(leq)
    ensures Alike(leq, o, Insert(leq, o, row, rows), like) == Alike(leq, o, [row] + rows, like)
  {
    hide Before, Preorder;
    assert ([row] + rows)[0] == row && ([row] + rows)[1..] == rows;
    if rows != [] && !Before(leq, o, row, rows[0]) {
      var more := Insert(leq, o, row, rows[1..]);
      InsertIsStable(leq, o, row, rows[1..], like);
      assert ([row] + rows[1..])[0] == row && ([row] + rows[1..])[1..] == rows[1..];
      assert ([rows[0]] + more)[0] == rows[0] && ([rows[0]] + more)[1..] == more;
      BeforeIsPreorder(leq, o, row, like, rows[0]);
    }
  }

  /** The sort is stable: rows that compare alike keep their order. */
  lemma {:induction false} SortIsStable(leq: Comparison, o: Ordering, rows: seq<Row>, like: Row)
    requires Preorder(leq)
    ensures Alike(leq, o, Sort(leq, o, rows), like) == Alike(leq, o, rows, like)
  {
    hide Before, Preorder;
    if rows != [] {
      var rest := Sort(leq, o, rows[1..]);
      SortIsStable(leq, o, rows[1..], like);
      InsertIsStable(leq, o, rows[0], rest, like);
      assert ([rows[0]] + rest)[0] == rows[0] && ([rows[0]] + rest)[1..] == rest;
    }
  }

  lemma {:induction false} SortOfOrdered(leq: Comparison, o: Ordering, rows: seq<Row>)
    requires InOrder(leq, o, rows)
    ensures Sort(leq, o, rows) == rows
  {
    hide Before;
    if rows != [] {
      SortOfOrdered(leq, o, rows[1..]);
      assert |rows| > 1 ==> Before(leq, o, rows[0], rows[1]);
      assert rows == [rows[0]] + rows[1..];
    }
  }

  // ---------------------------------------------------------------- the intended read

  /** The matching rows that keep a column. */
  function Hits(rows: seq<Row>, s: Stmt, env: map<string, string>): seq<Row>
    requires s.Read? && CleanWhere(s.where) && Covers(env, WhereNames(s.where))
  {
    if rows == [] then []
    else
      var n := |rows| - 1;
      Hits(rows[..n], s, env)
      + (if Selected(rows[n], s.where, env) && Columns(rows[n], s.columns) != map[] then [rows[n]] else [])
  }

  function Ordered(leq: Comparison, o: Option<Ordering>, rows: seq<Row>): seq<Row> {
    if o.None? then rows else Sort(leq, o.value, rows)
  }

  function Limited(limit: Option<nat>, rows: seq<Row>): seq<Row> {
    if limit.None? || |rows| <= limit.value then rows else rows[..limit.value]
  }

  /** What the clauses ask for: filter, order, project, limit. */
  function IntendedRead(leq: Comparison, rows: seq<Row>, s: Stmt, env: map<string, string>): seq<Row>
    requires s.Read? && CleanWhere(s.where) && Covers(env, WhereNames(s.where))
  {
    Limited(s.limit, Project(Ordered(leq, s.order, Hits(rows, s, env)), s.columns))
  }

  /** The matching rows stand in the order asked for. */
  predicate Stand(leq: Comparison, o: Option<Ordering>, rows: seq<Row>) {
    o.None? || InOrder(leq, o.value, rows)
  }

  predicate Few(limit: Option<nat>, rows: seq<Row>) {
    limit.None? || |rows| <= limit.value
  }

  /** The order column is among those returned. */
  predicate OrderShows(s: Stmt)
    requires s.Read?
  {
    s.order.None? || s.columns.None? || s.columns.value == [] || s.order.value.column in s.columns.value
  }

  /** Without ORDER BY and LIMIT the intended read is the meaning. */
  lemma {:induction false} MeaningIsHits(rows: seq<Row>, s: Stmt, env: map<string, string>)
    requires s.Read? && CleanStmt(s) && Covers(env, WhereNames(s.where))
    ensures ReadMeaning(rows, s, env) == Project(Hits(rows, s, env), s.columns)
  {
    hide ReadMeaning, Columns, Selected;
    if rows == [] {
      NothingMeant(s, env);
    } else {
      MeaningIsHits(rows[..|rows| - 1], s, env);
      ReadMeaningStep(rows, s, env);
    }
  }

  lemma {:induction false} InsertCells(leq: Comparison, o: Ordering, row: Row, rows: seq<Row>, columns: Option<seq<string>>)
    ensures |Insert(leq, o, row, rows)| == |rows| + 1
    ensures CellCount(Project(Insert(leq, o, row, rows), columns)) == |Columns(row, columns)| + CellCount(Project(rows, columns))
  {
    hide Before, CellCount, Columns;
    CellsOfFirst([row] + rows, columns);
    assert ([row] + rows)[1..] == rows;
    if rows == [] {
      assert [row] + [] == [row];
    } else if !Before(leq, o, row, rows[0]) {
      var more := Insert(leq, o, row, rows[1..]);
      InsertCells(leq, o, row, rows[1..], columns);
      CellsOfFirst([rows[0]] + more, columns);
      CellsOfFirst(rows, columns);
      assert ([rows[0]] + more)[1..] == more;
    }
  }

  lemma CellsOfFirst(rows: seq<Row>, columns: Option<seq<string>>)
    requires rows != []
    ensures CellCount(Project(rows, columns)) == |Columns(rows[0], columns)| + CellCount(Project(rows[1..], columns))
  {
    hide CellCount, Columns;
    var first := Columns(rows[0], columns);
    assert Project(rows, columns) == [first] + Project(rows[1..], columns);
    CellCountConcat([first], Project(rows[1..], columns));
    CellCountOfOne(first);
  }

  /** Ordering rows neither adds nor loses a cell. */
  lemma {:induction false} SortCells(leq: Comparison, o: Ordering, rows: seq<Row>, columns: Option<seq<string>>)
    ensures |Sort(leq, o, rows)| == |rows|
    ensures CellCount(Project(Sort(leq, o, rows), columns)) == CellCount(Project(rows, columns))
  {
    hide CellCount, Columns, Insert;
    if rows != [] {
      SortCells(leq, o, rows[1..], columns);
      InsertCells(leq, o, rows[0], Sort(leq, o, rows[1..]), columns);
      CellsOfFirst(rows, columns);
    }
  }

  lemma ShownKey(row: Row, columns: Option<seq<string>>, column: string)
    requires columns.None? || columns.value == [] || column in columns.value
    ensures KeyIn(Columns(row, columns), column) == KeyIn(row, column)
  {
  }

  /** Where the order column is returned, rows that look ordered are. */
  lemma ShownOrder(leq: Comparison, s: Stmt, hits: seq<Row>)
    requires s.Read? && s.order.Some? && OrderShows(s) && Preorder(leq)
    requires Project(Sort(leq, s.order.value, hits), s.columns) == Project(hits, s.columns)
    ensures InOrder(leq, s.order.value, hits)
  {
    hide Before, Columns, Sort, Preorder;
    var o := s.order.value;
    var sorted := Sort(leq, o, hits);
    SortIsInOrder(leq, o, hits);
    forall i | 0 <= i < |hits|
      ensures KeyIn(hits[i], o.column) == KeyIn(sorted[i], o.column)
    {
      assert Project(sorted, s.columns)[i] == Project(hits, s.columns)[i];
      ShownKey(hits[i], s.columns, o.column);
      ShownKey(sorted[i], s.columns, o.column);
    }
    forall i, j | 0 <= i < j < |hits|
      ensures Before(leq, o, hits[i], hits[j])
    {
      SameKeys(leq, o, hits[i], hits[j], sorted[i], sorted[j]);
    }
  }

  lemma SameKeys(leq: Comparison, o: Ordering, a: Row, b: Row, c: Row, d: Row)
    requires KeyIn(a, o.column) == KeyIn(c, o.column) && KeyIn(b, o.column) == KeyIn(d, o.column)
    ensures Before(leq, o, a, b) == Before(leq, o, c, d)
  {
  }

  lemma OrderedRows(leq: Comparison, o: Option<Ordering>, rows: seq<Row>, columns: Option<seq<string>>)
    ensures |Ordered(leq, o, rows)| == |rows|
    ensures CellCount(Project(Ordered(leq, o, rows), columns)) == CellCount(Project(rows, columns))
    ensures Stand(leq, o, rows) ==> Ordered(leq, o, rows) == rows
  {
    hide Sort, InOrder, CellCount, Project;
    if o.Some? {
      SortCells(leq, o.value, rows, columns);
      if InOrder(leq, o.value, rows) {
        SortOfOrdered(leq, o.value, rows);
      }
    }
  }

  /** The row loop against the intended read, over one table. */
  lemma FilteredAsIntended(leq: Comparison, rows: seq<Row>, s: Stmt, env: map<string, string>)
    requires s.Read? && CleanStmt(s) && Covers(env, WhereNames(s.where)) && Preorder(leq)
    ensures
      var got := FilterProject(rows, FilterOf(s.where, env), ProjectionOf(s.columns));
      var hits := Hits(rows, s, env);
      var asIntended := got == IntendedRead(leq, rows, s, env);
      && (AllCaseExact(rows, s, env) && Few(s.limit, hits) && Stand(leq, s.order, hits) ==> asIntended)
      && (asIntended ==> AllCaseExact(rows, s, env) && Few(s.limit, hits))
      && (asIntended && OrderShows(s) ==> Stand(leq, s.order, hits))
  {
    hide FilterProject, Hits, ReadMeaning, CellCount, Sort, InOrder, AllCaseExact, Preorder, Columns;
    var got := FilterProject(rows, FilterOf(s.where, env), ProjectionOf(s.columns));
    var hits := Hits(rows, s, env);
    FilteredCells(rows, s, env);
    MeaningIsHits(rows, s, env);
    OrderedRows(leq, s.order, hits, s.columns);
    if got == IntendedRead(leq, rows, s, env) {
      assert Few(s.limit, hits);
      assert got == Project(hits, s.columns);
      if s.order.Some? && OrderShows(s) {
        ShownOrder(leq, s, hits);
      }
    }
  }

  /**
   ORDER BY and LIMIT, exactly. For any way to compare cells, a compiled read returns what
   its clauses ask for whenever its matching rows already stand in the order asked for,
   are no more than the limit and do not confuse case. The limit and the case are needed
   in every read; the order is where the order column is among those returned.
   */
  lemma ReadIsAsIntendedExactly(cat: Allowlist, s: Stmt, env: map<string, string>, tables: Tables, writable: bool, leq: Comparison)
    requires CleanAllowlist(cat) && s.Read? && LowerStmt(cat, s).Ok? && Covers(env, StmtParams(s)) && Preorder(leq)
    ensures ResolveTable(cat, s.table).Ok? && CleanStmt(s) && Covers(env, Keys(LowerStmt(cat, s).value.schema))
    ensures
      var rows := RowsOf(tables, ResolveTable(cat, s.table).value.1);
      var asIntended := Run(LowerStmt(cat, s).value, env, tables, writable).result.rows == IntendedRead(leq, rows, s, env);
      var hits := Hits(rows, s, env);
      && (AllCaseExact(rows, s, env) && Few(s.limit, hits) && Stand(leq, s.order, hits) ==> asIntended)
      && (asIntended ==> AllCaseExact(rows, s, env) && Few(s.limit, hits))
      && (asIntended && OrderShows(s) ==> Stand(leq, s.order, hits))
  {
    hide Run, LowerStmt, FilterProject, CleanAllowlist, AllCaseExact, IntendedRead, Hits, Preorder, Stand, Few, OrderShows;
    CompiledReadRuns(cat, s, env, tables, writable);
    FilteredAsIntended(leq, RowsOf(tables, ResolveTable(cat, s.table).value.1), s, env);
  }

  // ---------------------------------------------------------------- inputs at which the clauses are not kept

  /** Cells compared as text, missing ones first. */
  predicate TextLeq(a: Key, b: Key) {
    a.None? || (b.Some? && LexLeq(a.value, b.value))
  }

  lemma TextLeqIsPreorder()
    ensures Preorder(TextLeq)
  {
    hide LexLeq;
    forall a: Key, b: Key
      ensures TextLeq(a, b) || TextLeq(b, a)
    {
      if a.Some? && b.Some? {
        LexTotal(a.value, b.value);
      }
    }
    forall a: Key, b: Key, c: Key | TextLeq(a, b) && TextLeq(b, c)
      ensures TextLeq(a, c)
    {
      if a.Some? {
        LexTransitive(a.value, b.value, c.value);
      }
    }
  }

  lemma OrderLowers(cat: Allowlist, s: Stmt)
    requires s.Read? && s.columns.None? && s.where.None? && s.order.Some?
    requires ResolveTable(cat, s.table).Ok? && ResolveColumn(cat, s.table, s.order.value.column).Ok?
    ensures LowerStmt(cat, s).Ok?
  {
  }

  lemma RunsUp(a: Row, b: Row, s: Stmt)
    requires s.Read? && s.columns.None? && s.where.None? && "id" in a && "id" in b
    ensures Hits([a, b], s, map[]) == [a, b] && AllCaseExact([a, b], s, map[])
  {
    assert Columns(a, None) == a != map[] && Columns(b, None) == b != map[];
    assert [a, b][..1] == [a] && [a][..0] == [];
    assert Hits([a], s, map[]) == [a];
  }

  lemma TwoBeforeOne(a: Row, b: Row)
    requires a == map["id" := "1"] && b == map["id" := "2"]
    ensures Sort(TextLeq, Ordering("id", true), [a, b]) == [b, a]
  {
    var o := Ordering("id", true);
    assert !LexLeq("2", "1");
    assert [a, b][1..] == [b] && [b][1..] == [];
    assert Sort(TextLeq, o, [b]) == [b];
    assert !Before(TextLeq, o, a, b);
    assert Insert(TextLeq, o, a, [b]) == [b] + Insert(TextLeq, o, a, []);
    assert [b] + [a] == [b, a];
  }

  /** `read agent_runs order id desc` over the runs 1 and 2 returns 1 before 2. */
  lemma OrderIsIgnored(cat: Allowlist)
    requires CleanAllowlist(cat) && "public" + "." + "agent_runs" in cat
    requires "id" in cat["public" + "." + "agent_runs"].columns
    ensures var s := Read("agent_runs", None, None, Some(Ordering("id", true)), None);
            var rows := [map["id" := "1"], map["id" := "2"]];
            && LowerStmt(cat, s).Ok? && Covers(map[], Keys(LowerStmt(cat, s).value.schema))
            && Run(LowerStmt(cat, s).value, map[], map["agent_runs" := rows], true).result.rows == rows
            && IntendedRead(TextLeq, rows, s, map[]) == [rows[1], rows[0]]
    ensures Preorder(TextLeq)
  {
    TextLeqIsPreorder();
    hide Preorder, Run, CleanAllowlist, LowerStmt, Sort, ReadMeaning, ResolveTable, Project, Hits, AllCaseExact;
    var s := Read("agent_runs", None, None, Some(Ordering("id", true)), None);
    var a: Row, b: Row := map["id" := "1"], map["id" := "2"];
    assert '.' !in "agent_runs";
    ResolvePlain(cat, "agent_runs");
    OrderLowers(cat, s);
    RunsUp(a, b, s);
    CompiledReadMeansRead(cat, s, map[], map["agent_runs" := [a, b]], true);
    MeaningIsHits([a, b], s, map[]);
    TwoBeforeOne(a, b);
  }

  /** Where the order column is not returned, rows out of order may look the same. */
  lemma HiddenOrderMayAgree()
    ensures var s := Read("agent_runs", Some(["status"]), None, Some(Ordering("id", false)), None);
            var a: Row, b: Row := map["id" := "2", "status" := "x"], map["id" := "1", "status" := "x"];
            && Preorder(TextLeq) && !OrderShows(s) && !Stand(TextLeq, s.order, Hits([a, b], s, map[]))
            && FilterProject([a, b], Everything, ProjectionOf(s.columns)) == IntendedRead(TextLeq, [a, b], s, map[])
  {
    TextLeqIsPreorder();
    hide Preorder, FilterProject, LexLeq, Columns, Sort, Project, CellCount;
    var s := Read("agent_runs", Some(["status"]), None, Some(Ordering("id", false)), None);
    var a: Row, b: Row := map["id" := "2", "status" := "x"], map["id" := "1", "status" := "x"];
    StatusShown(a, "2");
    StatusShown(b, "1");
    StatusHits(a, b, s);
    StatusIsClean();
    FilteredCells([a, b], s, map[]);
    MeaningIsHits([a, b], s, map[]);
    OneBeforeTwo(a, b);
    SortCells(TextLeq, s.order.value, [a, b], s.columns);
    SortPermutes(TextLeq, s.order.value, [a, b]);
    BothAlike(a, b, s, Sort(TextLeq, s.order.value, [a, b]));
  }

  lemma StatusShown(row: Row, id: string)
    requires row == map["id" := id, "status" := "x"]
    ensures Columns(row, Some(["status"])) == map["status" := "x"] && CaseExact(row, Some(["status"]))
  {
    assert Lower("id") == "id" && Lower("status") == "status";
  }

  lemma StatusIsClean()
    ensures CleanName("status") && CleanName("id")
  {
  }

  lemma StatusHits(a: Row, b: Row, s: Stmt)
    requires s.Read? && s.where.None? && s.columns == Some(["status"])
    requires Columns(a, s.columns) == map["status" := "x"] == Columns(b, s.columns)
    requires CaseExact(a, s.columns) && CaseExact(b, s.columns)
    ensures Hits([a, b], s, map[]) == [a, b] && AllCaseExact([a, b], s, map[])
  {
    hide Columns, CaseExact;
    assert "status" in Columns(a, s.columns) && "status" in Columns(b, s.columns);
    assert [a, b][..1] == [a] && [a][..0] == [];
    assert Hits([a], s, map[]) == [a];
  }

  lemma OneBeforeTwo(a: Row, b: Row)
    requires a == map["id" := "2", "status" := "x"] && b == map["id" := "1", "status" := "x"]
    ensures !InOrder(TextLeq, Ordering("id", false), [a, b])
  {
    assert !LexLeq("2", "1");
    assert !Before(TextLeq, Ordering("id", false), [a, b][0], [a, b][1]);
  }

  lemma BothAlike(a: Row, b: Row, s: Stmt, rows: seq<Row>)
    requires s.Read? && |rows| == 2 && multiset(rows) == multiset([a, b])
    requires Columns(a, s.columns) == Columns(b, s.columns)
    ensures Project(rows, s.columns) == Project([a, b], s.columns)
  {
    hide Columns;
    assert rows[0] in multiset(rows) && rows[1] in multiset(rows);
  }
}
