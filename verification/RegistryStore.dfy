/**
 The registry's plans against the store: what each of them reads and writes, and
 exactly which rows the store keeps as they were sent.
 */
module RegistryStore {
  import opened Text
  import opened Catalog
  import opened Liq
  import opened Flatten
  import opened Lowering
  import opened Compiler
  import opened Native
  import opened Pipeline
  import opened ReadPipeline
  import opened Snapshot
  import opened NativeEngine
  import opened Transport
  import opened Bridge
  import opened Registry

  // ---------------------------------------------------------------- the texts of the plans

  lemma TableNamesAreClean()
    ensures CleanName("publishers") && CleanName("packages") && CleanName("package_versions")
  {
  }

  lemma ShortNamesAreClean()
    ensures CleanName("id") && CleanName("name") && CleanName("public_key") && CleanName("description")
    ensures CleanName("package_id") && CleanName("version") && CleanName("yanked")
  {
  }

  lemma LongNamesAreClean()
    ensures CleanName("repository_url") && CleanName("tree_digest") && CleanName("proof_digest")
    ensures CleanName("coverage_pct") && CleanName("publisher_id") && CleanName("published_at")
  {
  }

  lemma ViewsAreClean()
    ensures CleanDistinct(PUBLISHER_VIEW) && CleanDistinct(PACKAGE_VIEW) && CleanDistinct(VERSION_VIEW)
    ensures CleanDistinct(PUBLISHER_COLUMNS) && CleanDistinct(PACKAGE_COLUMNS) && CleanDistinct(VERSION_COLUMNS)
  {
    hide CleanName;
    ShortNamesAreClean();
    LongNamesAreClean();
  }

  lemma LimitOne()
    ensures FlatLimit(Some(1)) == " LIMIT 1" && FlatLimit(None) == ""
  {
    assert Decimal(1) == "1";
  }

  // ---------------------------------------------------------------- one plan over the tables

  lemma OneKey(column: string, value: string, ty: string)
    ensures KeySet([(column, ty)]) == {column}
    ensures map[column := value].Keys == {column}
  {
    assert Keys([(column, ty)]) == [column];
  }

  /**
   A read plan leaves the file alone and refuses a value that its text contains, or
   answers from the tables: with the stored rows exactly when they are plain.
   */
  lemma ExecuteRead(file: Option<string>, t: string, columns: seq<string>, column: string, limit: Option<nat>, value: string,
                    opens: bool)
    requires CleanName(t) && CleanDistinct(columns) && CleanName(column)
    ensures
      var plan := ReadPlan(t, columns, column, limit);
      var rows := FilterProject(RowsOf(Load(file), t), Equals(column, Received(value)), Some(columns));
      && Execute(file, plan, map[column := value], opens) ==
         Called(file, if Find(plan.sql, value).Some? then Raised(ParameterMismatch) else Answer(rows))
      && Call(file, plan.sql, [value], opens) == Called(file, Answer(rows))
      && (Answer(rows) == Done(rows) <==> AllPlain(rows))
  {
    hide *;
    var plan := ReadPlan(t, columns, column, limit);
    SelectFlattens(t, columns, column, limit);
    ReadOfIsClean(t, columns, column, limit);
    BoundOne(plan, t, columns, column, limit, value);
    CallRead(file, plan.sql, t, ReadOf(t, columns, column, limit), value, opens);
    ExecuteCases(file, plan, map[column := value], opens);
  }

  lemma ReadOfIsClean(t: string, columns: seq<string>, column: string, limit: Option<nat>)
    requires CleanDistinct(columns) && CleanName(column)
    ensures var s := ReadOf(t, columns, column, limit);
            s.Read? && s.where.Some? && s.where.value.column == column && CleanStmt(s) && s.columns == Some(columns)
            && ProjectionOf(s.columns) == Some(columns)
    ensures ReadPlan(t, columns, column, limit).sql == SelectSql(t, columns, column, limit)
  {
    hide CleanName;
  }

  lemma BoundOne(plan: Plan, t: string, columns: seq<string>, column: string, limit: Option<nat>, value: string)
    requires plan == ReadPlan(t, columns, column, limit)
    ensures BoundParams(plan, map[column := value]) ==
            if Find(plan.sql, value).Some? then Raised(ParameterMismatch) else Done([value])
  {
    hide SelectSql, Find;
    var params := map[column := value];
    OneKey(column, value, ParamType(column));
    if Find(plan.sql, value).Some? {
      assert column in params && params[column] == value;
    } else {
      assert OrderedParams(plan.schema, params) == [value];
    }
  }

  lemma ExecuteCases(file: Option<string>, plan: Plan, params: map<string, string>, opens: bool)
    ensures
      var bound := BoundParams(plan, params);
      Execute(file, plan, params, opens) ==
      if bound.Raised? then Called(file, Raised(bound.why)) else Call(file, plan.sql, bound.value, opens)
  {
    hide BoundParams, Call;
  }

  /** The row an insert plan stores: each column the received value of its parameter. */
  function ReceivedRow(columns: seq<string>, params: map<string, string>): Row {
    map c | c in columns && c in params :: Received(params[c])
  }

  predicate BarlessParams(params: map<string, string>) {
    forall k :: k in params ==> Barless(params[k])
  }

  predicate ParamsFor(columns: seq<string>, params: map<string, string>) {
    params.Keys == set c | c in columns
  }

  /**
   An insert plan refuses or fails and changes nothing, or appends a row: the received
   one if and only if the tables were durable and no value holds a bar.
   */
  lemma ExecuteInsert(file: Option<string>, t: string, columns: seq<string>, params: map<string, string>, opens: bool)
    requires CleanName(t) && CleanDistinct(columns) && ParamsFor(columns, params)
    ensures
      var c := Execute(file, InsertPlan(t, columns), params, opens);
      var row := ReceivedRow(columns, params);
      && (c.answer.Done? <==> opens && BoundParams(InsertPlan(t, columns), params).Done?)
      && (c.answer.Raised? ==> c.file == file)
      && (c.answer.Done? ==>
            && c.answer == Done([])
            && (Load(c.file) == Append(Load(file), t, row) <==> Durable(Load(file)) && BarlessParams(params))
            && (Durable(Load(file)) ==> Load(c.file) == Append(Load(file), t, Reload(row))))
  {
    hide *;
    var plan := InsertPlan(t, columns);
    ExecuteCases(file, plan, params, opens);
    InsertPlanIs(t, columns);
    if BoundParams(plan, params).Done? {
      var values := BoundParams(plan, params).value;
      BoundMany(plan, t, columns, params);
      InsertFlattens(t, columns);
      ReceivedRowIs(columns, params, values);
      CallInsert(file, plan.sql, t, columns, values, opens);
    }
  }

  lemma InsertPlanIs(t: string, columns: seq<string>)
    ensures InsertPlan(t, columns).sql == InsertSqlOf(t, columns)
  {
    hide InsertSqlOf;
  }

  lemma BoundMany(plan: Plan, t: string, columns: seq<string>, params: map<string, string>)
    requires plan == InsertPlan(t, columns) && BoundParams(plan, params).Done? && ParamsFor(columns, params)
    ensures var values := BoundParams(plan, params).value;
            && |values| == |columns| && (AllBarless(values) <==> BarlessParams(params))
            && forall i :: 0 <= i < |columns| ==> columns[i] in params && values[i] == params[columns[i]]
  {
    hide InsertSqlOf, Find, Barless;
    var d := plan.schema;
    forall i | 0 <= i < |columns|
      ensures columns[i] in params && d[i].0 == columns[i]
    {
      assert Keys(d)[i] == columns[i] && Keys(d)[i] in Keys(d);
      assert columns[i] in KeySet(d);
    }
    var values := BoundParams(plan, params).value;
    forall k | k in params && AllBarless(values)
      ensures Barless(params[k])
    {
      assert k in params.Keys;
      var i :| 0 <= i < |columns| && columns[i] == k;
      assert Barless(values[i]);
    }
  }

  lemma ReceivedRowIs(columns: seq<string>, params: map<string, string>, values: seq<string>)
    requires |values| == |columns| && CleanDistinct(columns)
    requires forall i :: 0 <= i < |columns| ==> columns[i] in params && values[i] == params[columns[i]]
    ensures RowWith(columns, ReceivedAll(values)) == ReceivedRow(columns, params)
  {
    hide Received, CleanName;
    var row := RowWith(columns, ReceivedAll(values));
    RowWithCells(columns, ReceivedAll(values));
    forall c | c in columns
      ensures c in row && c in params && row[c] == Received(params[c])
    {
      var i :| 0 <= i < |columns| && columns[i] == c;
    }
  }

  // ---------------------------------------------------------------- filtered rows

  /** Every row has exactly these columns. */
  predicate Shaped(rows: seq<Row>, columns: seq<string>) {
    forall i :: 0 <= i < |rows| ==> rows[i].Keys == set c | c in columns
  }

  lemma {:induction false} FilterGrows(a: seq<Row>, b: seq<Row>, f: Filter, columns: Projection)
    requires a <= b
    ensures FilterProject(a, f, columns) <= FilterProject(b, f, columns)
    decreases |b|
  {
    hide ProjectRow;
    if |a| < |b| {
      FilterGrows(a, b[..|b| - 1], f, columns);
    } else {
      assert a == b;
    }
  }

  /** Where the filtered list comes from. */
  lemma {:induction false} FilteredFrom(rows: seq<Row>, f: Filter, columns: Projection, k: nat)
    requires k < |FilterProject(rows, f, columns)|
    ensures exists i :: 0 <= i < |rows| && Matches(rows[i], f) && ProjectRow(rows[i], columns) == FilterProject(rows, f, columns)[k]
    decreases |rows|
  {
    hide ProjectRow, Matches;
    var n := |rows| - 1;
    if k < |FilterProject(rows[..n], f, columns)| {
      FilteredFrom(rows[..n], f, columns, k);
      var i :| 0 <= i < n && Matches(rows[..n][i], f) && ProjectRow(rows[..n][i], columns) == FilterProject(rows[..n], f, columns)[k];
      assert rows[i] == rows[..n][i];
    } else {
      assert Matches(rows[n], f) && ProjectRow(rows[n], columns) == FilterProject(rows, f, columns)[k];
    }
  }

  /** A matching row that keeps a column is in the filtered list, so an empty list means no match. */
  lemma {:induction false} NoneMatches(rows: seq<Row>, f: Filter, columns: seq<string>)
    requires FilterProject(rows, f, Some(columns)) == []
    requires forall i :: 0 <= i < |rows| ==> "id" in rows[i]
    requires "id" in columns
    ensures forall i :: 0 <= i < |rows| ==> !Matches(rows[i], f)
    decreases |rows|
  {
    if rows != [] {
      var n := |rows| - 1;
      NoneMatches(rows[..n], f, columns);
      assert Lower("id") == "id";
      assert "id" in ProjectRow(rows[n], Some(columns));
      forall i | 0 <= i < |rows|
        ensures !Matches(rows[i], f)
      {
        assert i < n ==> rows[i] == rows[..n][i];
      }
    }
  }

  lemma ProjectedCell(row: Row, columns: seq<string>, k: string)
    requires Lower(k) == k
    ensures k in ProjectRow(row, Some(columns)) <==> k in row && k in columns
    ensures k in ProjectRow(row, Some(columns)) ==> ProjectRow(row, Some(columns))[k] == row[k]
  {
  }

  // ---------------------------------------------------------------- one write

  /** The three kinds of rows, each with the plan that inserts it and the plan that reads it. */
  datatype Kind = PublisherRow | PackageRow | VersionRow

  function TableOf(k: Kind): string {
    match k
    case PublisherRow => "publishers"
    case PackageRow => "packages"
    case VersionRow => "package_versions"
  }

  function ColumnsOf(k: Kind): seq<string> {
    match k
    case PublisherRow => PUBLISHER_COLUMNS
    case PackageRow => PACKAGE_COLUMNS
    case VersionRow => VERSION_COLUMNS
  }

  /** The columns that the reading plan selects. */
  function ViewOf(k: Kind): seq<string> {
    match k
    case PublisherRow => PUBLISHER_VIEW
    case PackageRow => PACKAGE_VIEW
    case VersionRow => VERSION_VIEW
  }

  /** The column that the reading plan compares. */
  function KeyOf(k: Kind): string {
    match k
    case PublisherRow => "name"
    case PackageRow => "name"
    case VersionRow => "package_id"
  }

  function ReadingPlan(k: Kind): Plan {
    ReadPlan(TableOf(k), ViewOf(k), KeyOf(k), if k.VersionRow? then None else Some(1))
  }

  function InsertingPlan(k: Kind): Plan {
    InsertPlan(TableOf(k), ColumnsOf(k))
  }

  lemma PlansOfKinds()
    ensures ReadingPlan(PublisherRow) == PublisherByName() && InsertingPlan(PublisherRow) == InsertPublisher()
    ensures ReadingPlan(PackageRow) == PackageByName() && InsertingPlan(PackageRow) == InsertPackage()
    ensures ReadingPlan(VersionRow) == VersionsForPackage() && InsertingPlan(VersionRow) == InsertPackageVersion()
  {
    hide ReadPlan, InsertPlan;
  }

  lemma KindIsClean(k: Kind)
    ensures CleanName(TableOf(k)) && CleanDistinct(ColumnsOf(k)) && CleanDistinct(ViewOf(k)) && CleanName(KeyOf(k))
    ensures KeyOf(k) in ColumnsOf(k)
  {
    hide CleanDistinct, CleanName;
    ViewsAreClean();
    TableNamesAreClean();
    ShortNamesAreClean();
  }

  /** Rows of which the reading plan can show all that it selects. */
  predicate PlainView(rows: seq<Row>, view: seq<string>) {
    forall i :: 0 <= i < |rows| ==> PlainRow(ProjectRow(rows[i], Some(view)))
  }

  lemma {:induction false} FilteredRowsArePlain(rows: seq<Row>, f: Filter, view: seq<string>)
    requires PlainView(rows, view)
    ensures AllPlain(FilterProject(rows, f, Some(view)))
  {
    hide PlainRow, ProjectRow, Matches;
    if rows != [] {
      var n := |rows| - 1;
      FilteredRowsArePlain(rows[..n], f, view);
      assert PlainRow(ProjectRow(rows[n], Some(view)));
    }
  }

  /** Tables that come back from their file and whose rows the reading plans can show. */
  predicate Kept(tables: Tables) {
    && Durable(tables)
    && PlainView(RowsOf(tables, "publishers"), PUBLISHER_VIEW)
    && PlainView(RowsOf(tables, "packages"), PACKAGE_VIEW)
    && PlainView(RowsOf(tables, "package_versions"), VERSION_VIEW)
  }

  lemma KeptView(tables: Tables, k: Kind)
    requires Kept(tables)
    ensures Durable(tables) && PlainView(RowsOf(tables, TableOf(k)), ViewOf(k))
  {
    hide Durable, PlainView;
  }

  /** One accepted insert: the file before it, what was sent, the file after it. */
  datatype Write = Write(before: Option<string>, kind: Kind, params: map<string, string>, after: Option<string>)

  /**
   What a caller expects of an accepted insert: the next load finds the tables with
   exactly the row that arrived, and the kind's reading plan, asked for this row's own
   key, answers with the stored rows.
   */
  predicate KeptAsSent(w: Write) {
    var row := ReceivedRow(ColumnsOf(w.kind), w.params);
    var key := KeyOf(w.kind);
    && Load(w.after) == Append(Load(w.before), TableOf(w.kind), row)
    && key in w.params
    && Call(w.after, ReadingPlan(w.kind).sql, [w.params[key]], true) ==
       Called(w.after, Done(FilterProject(RowsOf(Load(w.after), TableOf(w.kind)), Equals(key, Received(w.params[key])),
                                          Some(ViewOf(w.kind)))))
  }

  /**
   The check on the values: no bar in any of them, and no quote or backslash in those
   that the reading plan selects.
   */
  predicate SafeFor(k: Kind, params: map<string, string>) {
    BarlessParams(params) && forall c :: c in params && c in ViewOf(k) ==> Quoteless(params[c])
  }

  lemma ViewIsPlainExactly(columns: seq<string>, view: seq<string>, params: map<string, string>)
    requires ParamsFor(columns, params) && CleanDistinct(columns)
    ensures PlainRow(ProjectRow(ReceivedRow(columns, params), Some(view))) <==>
            forall c :: c in params && c in view ==> Quoteless(params[c])
  {
    hide PlainJson, Received, Quoteless, CleanName;
    var row := ReceivedRow(columns, params);
    var shown := ProjectRow(row, Some(view));
    forall c | c in params
      ensures c in row && row[c] == Received(params[c]) && (c in shown <==> c in view) && (c in shown ==> shown[c] == row[c])
      ensures PlainJson(c) && (PlainJson(row[c]) <==> Quoteless(params[c]))
    {
      assert c in params.Keys;
      var i :| 0 <= i < |columns| && columns[i] == c;
      CleanNameIsPlain(c);
      CleanNameFacts(c);
      ArrivesExactly(params[c]);
    }
    assert forall c :: c in shown ==> c in params;
  }

  /** One more row that matches: the filtered rows are plain exactly if its share is. */
  lemma OneMoreHit(rows: seq<Row>, row: Row, f: Filter, view: seq<string>)
    requires PlainView(rows, view) && Matches(row, f)
    ensures AllPlain(FilterProject(rows + [row], f, Some(view))) <==> PlainRow(ProjectRow(row, Some(view)))
    ensures PlainRow(ProjectRow(row, Some(view))) ==> PlainView(rows + [row], view)
  {
    hide ProjectRow;
    FilteredRowsArePlain(rows, f, view);
    var all, hits := rows + [row], FilterProject(rows, f, Some(view));
    var shown := ProjectRow(row, Some(view));
    assert all[..|rows|] == rows;
    assert FilterProject(all, f, Some(view)) == hits + (if shown != map[] then [shown] else []);
    assert shown != map[] ==> (hits + [shown])[|hits|] == shown;
  }

  /**
   The step, exactly: over kept tables an accepted insert is kept as it was sent if and
   only if its values are safe, and then the tables stay kept.
   */
  lemma WriteExactly(file: Option<string>, k: Kind, params: map<string, string>, opens: bool)
    requires ParamsFor(ColumnsOf(k), params) && Kept(Load(file))
    ensures
      var c := Execute(file, InsertingPlan(k), params, opens);
      && (c.answer.Raised? ==> c.file == file)
      && (c.answer.Done? ==>
            && c.answer == Done([])
            && (KeptAsSent(Write(file, k, params, c.file)) <==> SafeFor(k, params))
            && (SafeFor(k, params) ==>
                  Load(c.file) == Append(Load(file), TableOf(k), ReceivedRow(ColumnsOf(k), params)) && Kept(Load(c.file))))
  {
    hide *;
    KindIsClean(k);
    InsertingPlanIs(k);
    ExecuteInsert(file, TableOf(k), ColumnsOf(k), params, opens);
    var c := Execute(file, InsertingPlan(k), params, opens);
    var row := ReceivedRow(ColumnsOf(k), params);
    if c.answer.Done? {
      KeptView(Load(file), k);
      ViewIsPlainExactly(ColumnsOf(k), ViewOf(k), params);
      if Load(c.file) == Append(Load(file), TableOf(k), row) {
        StoredRowIsRead(file, c.file, k, params, row);
      }
      SafeForIs(k, params);
      ReceivedCell(ColumnsOf(k), params, KeyOf(k));
      KeptAsSentIs(Write(file, k, params, c.file), row);
    }
  }

  lemma InsertingPlanIs(k: Kind)
    ensures InsertingPlan(k) == InsertPlan(TableOf(k), ColumnsOf(k))
  {
  }

  lemma SafeForIs(k: Kind, params: map<string, string>)
    ensures SafeFor(k, params) <==> BarlessParams(params) && forall c :: c in params && c in ViewOf(k) ==> Quoteless(params[c])
  {
  }

  lemma KeptAsSentIs(w: Write, row: Row)
    requires row == ReceivedRow(ColumnsOf(w.kind), w.params) && KeyOf(w.kind) in w.params
    ensures
      var value := w.params[KeyOf(w.kind)];
      KeptAsSent(w) <==>
        && Load(w.after) == Append(Load(w.before), TableOf(w.kind), row)
        && Call(w.after, ReadingPlan(w.kind).sql, [value], true) ==
           Called(w.after, Done(FilterProject(RowsOf(Load(w.after), TableOf(w.kind)), Equals(KeyOf(w.kind), Received(value)),
                                              Some(ViewOf(w.kind)))))
  {
    hide Load, ReceivedRow, Call, FilterProject, ReadingPlan, Append, RowsOf, Received, TableOf, KeyOf, ViewOf, ColumnsOf;
  }

  lemma ReadingPlanIs(k: Kind)
    ensures ReadingPlan(k) == ReadPlan(TableOf(k), ViewOf(k), KeyOf(k), if k.VersionRow? then None else Some(1))
  {
  }

  lemma HasKey(row: Row, f: Filter)
    requires f.Equals? && f.column in row && row[f.column] == f.value
    ensures Matches(row, f)
  {
  }

  lemma ReceivedCell(columns: seq<string>, params: map<string, string>, c: string)
    requires c in columns && ParamsFor(columns, params)
    ensures c in params && c in ReceivedRow(columns, params) && ReceivedRow(columns, params)[c] == Received(params[c])
    ensures ReceivedRow(columns, params).Keys == set x | x in columns
  {
    hide Received;
    assert c in params.Keys;
  }

  lemma AppendRows(tables: Tables, t: string, row: Row)
    ensures RowsOf(Append(tables, t, row), t) == RowsOf(tables, t) + [row]
    ensures forall x :: x != t ==> RowsOf(Append(tables, t, row), x) == RowsOf(tables, x)
    ensures Behind(tables, Append(tables, t, row))
  {
  }

  lemma ReceivedRowIsDurable(columns: seq<string>, params: map<string, string>)
    requires ParamsFor(columns, params) && CleanDistinct(columns) && BarlessParams(params)
    ensures DurableRow(ReceivedRow(columns, params))
  {
    hide CleanName, DurableRow, Received, RowWith, PlainRow;
    assert forall i :: 0 <= i < |columns| ==> columns[i] in columns && columns[i] in params.Keys;
    var values := seq(|columns|, i requires 0 <= i < |columns| => params[columns[i]]);
    ReceivedRowIs(columns, params, values);
    NewRowExactly(columns, values);
  }

  lemma KeptGrows(tables: Tables, k: Kind, row: Row)
    requires Kept(tables) && DurableRow(row) && PlainView(RowsOf(tables, TableOf(k)) + [row], ViewOf(k))
    ensures Kept(Append(tables, TableOf(k), row))
  {
    hide *;
    KindIsClean(k);
    CleanNameIsPlain(TableOf(k));
    CleanNameNonEmpty(TableOf(k));
    var t, after := TableOf(k), Append(tables, TableOf(k), row);
    AppendRows(tables, t, row);
    KeptIs(tables);
    AppendDurableExactly(tables, t, row);
    KindTables(k);
    KeptIs(after);
  }

  lemma KeptIs(tables: Tables)
    ensures Kept(tables) <==>
      && Durable(tables)
      && PlainView(RowsOf(tables, "publishers"), PUBLISHER_VIEW)
      && PlainView(RowsOf(tables, "packages"), PACKAGE_VIEW)
      && PlainView(RowsOf(tables, "package_versions"), VERSION_VIEW)
  {
    hide Durable, PlainView, RowsOf;
  }

  lemma KindTables(k: Kind)
    ensures k.PublisherRow? ==> TableOf(k) == "publishers" && ViewOf(k) == PUBLISHER_VIEW
    ensures k.PackageRow? ==> TableOf(k) == "packages" && ViewOf(k) == PACKAGE_VIEW
    ensures k.VersionRow? ==> TableOf(k) == "package_versions" && ViewOf(k) == VERSION_VIEW
    ensures "publishers" != "packages" && "publishers" != "package_versions" && "packages" != "package_versions"
  {
  }

  /** A row stored as received is read back exactly if its view is plain. */
  lemma StoredRowIsRead(before: Option<string>, after: Option<string>, k: Kind, params: map<string, string>, row: Row)
    requires ParamsFor(ColumnsOf(k), params) && row == ReceivedRow(ColumnsOf(k), params)
    requires Kept(Load(before)) && Load(after) == Append(Load(before), TableOf(k), row)
    requires Durable(Load(before)) && BarlessParams(params)
    ensures KeptAsSent(Write(before, k, params, after)) <==> PlainRow(ProjectRow(row, Some(ViewOf(k))))
    ensures PlainRow(ProjectRow(row, Some(ViewOf(k)))) ==> Kept(Load(after))
  {
    hide *;
    KindIsClean(k);
    KeptView(Load(before), k);
    var key, t := KeyOf(k), TableOf(k);
    var rows := RowsOf(Load(before), t);
    ReceivedCell(ColumnsOf(k), params, key);
    var f := Equals(key, Received(params[key]));
    HasKey(row, f);
    OneMoreHit(rows, row, f, ViewOf(k));
    AppendRows(Load(before), t, row);
    ReadingPlanIs(k);
    ExecuteRead(after, t, ViewOf(k), key, if k.VersionRow? then None else Some(1), params[key], true);
    KeptAsSentIs(Write(before, k, params, after), row);
    ReceivedRowIsDurable(ColumnsOf(k), params);
    if PlainRow(ProjectRow(row, Some(ViewOf(k)))) {
      KeptGrows(Load(before), k, row);
    }
  }
}
