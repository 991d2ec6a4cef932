/**
 The package registry over the bridge: get-or-create and publish against append-only
 tables that enforce nothing, and what nevertheless holds over every run.
 */
module Registry {
  import opened Text
  import opened Catalog
  import opened Liq
  import opened Flatten
  import opened Lowering
  import opened Compiler
  import opened Native
  import opened Pipeline
  import opened ReadPipeline
  import opened Snapshot
  import opened NativeEngine
  import opened Transport
  import opened Bridge
  import opened PyFloat

  // ---------------------------------------------------------------- the frozen plans

  const PUBLISHER_VIEW := ["id", "name"]
  const PACKAGE_VIEW := ["id", "name", "description", "repository_url"]
  const VERSION_VIEW := ["id", "version", "tree_digest", "proof_digest", "coverage_pct", "published_at", "yanked"]
  const PUBLISHER_COLUMNS := ["id", "name", "public_key"]
  const PACKAGE_COLUMNS := ["id", "name", "description", "repository_url"]
  const VERSION_COLUMNS := ["id", "package_id", "version", "tree_digest", "proof_digest", "coverage_pct", "publisher_id"]

  function ReadOf(t: string, columns: seq<string>, column: string, limit: Option<nat>): Stmt {
    Read(t, Some(columns), Some(Predicate(column, ParamRef(column))), None, limit)
  }

  function SelectSql(t: string, columns: seq<string>, column: string, limit: Option<nat>): string {
    "SELECT " + Join(columns, ", ") + " FROM " + t + " WHERE " + column + " = $1" + FlatLimit(limit)
  }

  function InsertSqlOf(t: string, columns: seq<string>): string {
    "INSERT INTO " + t + " (" + Join(columns, ", ") + ") VALUES (" + Join(ValueTexts(ColumnBindings(columns)), ", ") + ")"
  }

  /** One text parameter, the column compared with. */
  function ReadPlan(t: string, columns: seq<string>, column: string, limit: Option<nat>): Plan {
    Plan(SelectSql(t, columns, column, limit), [(column, ParamType(column))])
  }

  function ColumnSchema(columns: seq<string>): (d: Schema)
    ensures Keys(d) == columns
  {
    seq(|columns|, i requires 0 <= i < |columns| => (columns[i], ParamType(columns[i])))
  }

  /** A parameter for each column, in column order. */
  function InsertPlan(t: string, columns: seq<string>): Plan {
    Plan(InsertSqlOf(t, columns), ColumnSchema(columns))
  }

  function PublisherByName(): Plan {
    ReadPlan("publishers", PUBLISHER_VIEW, "name", Some(1))
  }

  function PackageByName(): Plan {
    ReadPlan("packages", PACKAGE_VIEW, "name", Some(1))
  }

  function VersionsForPackage(): Plan {
    ReadPlan("package_versions", VERSION_VIEW, "package_id", None)
  }

  function InsertPublisher(): Plan {
    InsertPlan("publishers", PUBLISHER_COLUMNS)
  }

  function InsertPackage(): Plan {
    InsertPlan("packages", PACKAGE_COLUMNS)
  }

  function InsertPackageVersion(): Plan {
    InsertPlan("package_versions", VERSION_COLUMNS)
  }

  lemma CleanTextIsGood(x: string)
    requires x != "" && '"' !in x && '$' !in x && x[0] != '.' && !IsDigit(x[0])
    ensures Shows([Lit(x)], x, x)
  {
    ShowsLit(x);
  }

  lemma ColumnsAvoid(columns: seq<string>)
    requires CleanDistinct(columns)
    ensures '"' !in Join(columns, ", ") && '$' !in Join(columns, ", ")
  {
    forall i | 0 <= i < |columns|
      ensures '"' !in columns[i] && '$' !in columns[i]
    {
      NameAvoids(columns[i]);
    }
    JoinAvoids(columns, ", ", '"');
    JoinAvoids(columns, ", ", '$');
  }

  lemma NameAvoids(s: string)
    requires CleanName(s)
    ensures '"' !in s && '$' !in s
  {
    assert forall i :: 0 <= i < |s| ==> s[i] != '"' && s[i] != '$';
  }

  /** The pieces of a reading plan's text. */
  function SelectPieces(t: string, columns: seq<string>, column: string, limit: Option<nat>): seq<Piece> {
    [Lit("SELECT " + Join(columns, ", ") + " FROM " + t + " WHERE " + column + " = ")] + ([Slot(1)] + LimitPieces(limit))
  }

  lemma SelectFlattens(t: string, columns: seq<string>, column: string, limit: Option<nat>)
    requires CleanName(t) && CleanDistinct(columns) && CleanName(column)
    ensures Flattens(SelectSql(t, columns, column, limit), t, ReadOf(t, columns, column, limit))
  {
    hide *;
    SelectShows(t, columns, column, limit);
    ShowsFlattens(SelectPieces(t, columns, column, limit), SelectSql(t, columns, column, limit), t,
                  ReadOf(t, columns, column, limit));
  }

  lemma SelectShows(t: string, columns: seq<string>, column: string, limit: Option<nat>)
    requires CleanName(t) && CleanDistinct(columns) && CleanName(column)
    ensures Shows(SelectPieces(t, columns, column, limit), SelectSql(t, columns, column, limit),
                  FlatText(t, ReadOf(t, columns, column, limit)))
  {
    assert columns != [];
    hide Join, Decimal, Shows, FlatText, SelectSql, LimitPieces, FlatLimit, CleanName, CleanDistinct;
    var head := "SELECT " + Join(columns, ", ") + " FROM " + t + " WHERE " + column + " = ";
    SelectHead(t, columns, column, head);
    ShowsSlot(1);
    ShowsLimit(limit);
    Shows3([Lit(head)], [Slot(1)], LimitPieces(limit), head, "$" + Decimal(1), FlatLimit(limit), head, "?", FlatLimit(limit));
    SelectTexts(t, columns, column, limit, head);
  }

  lemma SelectHead(t: string, columns: seq<string>, column: string, head: string)
    requires CleanName(t) && CleanDistinct(columns) && CleanName(column)
    requires head == "SELECT " + Join(columns, ", ") + " FROM " + t + " WHERE " + column + " = "
    ensures Shows([Lit(head)], head, head) && EndsLit([Lit(head)])
  {
    hide Join, CleanName, Shows;
    ColumnsAvoid(columns);
    NameAvoids(t);
    NameAvoids(column);
    assert head[0] == 'S';
    CleanTextIsGood(head);
  }

  lemma SelectTexts(t: string, columns: seq<string>, column: string, limit: Option<nat>, head: string)
    requires columns != []
    requires head == "SELECT " + Join(columns, ", ") + " FROM " + t + " WHERE " + column + " = "
    ensures head + ("$" + Decimal(1)) + FlatLimit(limit) == SelectSql(t, columns, column, limit)
    ensures head + "?" + FlatLimit(limit) == FlatText(t, ReadOf(t, columns, column, limit))
  {
    hide Join, FlatLimit;
    assert Decimal(1) == "1" && "$" + "1" == "$1";
    var a := "SELECT " + Join(columns, ", ") + " FROM " + t;
    Assoc3(a + " WHERE " + column, " = ", "$1");
    assert " = " + "$1" == " = $1" && " = " + "?" == " = ?";
    Assoc3(a + " WHERE " + column, " = ", "?");
    Assoc4(a, " WHERE ", column, " = ?");
    Assoc3(" WHERE ", column, " = ?");
    assert a + (" WHERE " + column + " = ?") + "" == a + (" WHERE " + column + " = ?");
  }

  lemma ShowsFlattens(ps: seq<Piece>, sql: string, t: string, s: Stmt)
    requires Shows(ps, sql, FlatText(t, s))
    ensures Flattens(sql, t, s)
  {
    hide FlatText, FlattenBridge, FlattenEngine;
    FlatteningIsHomomorphic(ps);
  }

  lemma InsertFlattens(t: string, columns: seq<string>)
    requires CleanName(t) && CleanDistinct(columns)
    ensures Flattens(InsertSqlOf(t, columns), t, InsertOf(t, columns))
  {
    hide *;
    var bs := ColumnBindings(columns);
    var head := "INSERT INTO " + t + " (" + Join(columns, ", ") + ") VALUES (";
    InsertHead(t, columns, head);
    ShowsValues(bs);
    Shows3([Lit(head)], Commas(ValueItems(bs)), [Lit(")")], head, Join(ValueTexts(bs), ", "), ")",
           head, Join(FlatValues(bs), ", "), ")");
    InsertTexts(t, columns);
    ShowsFlattens([Lit(head)] + (Commas(ValueItems(bs)) + [Lit(")")]), InsertSqlOf(t, columns), t, InsertOf(t, columns));
  }

  lemma InsertHead(t: string, columns: seq<string>, head: string)
    requires CleanName(t) && CleanDistinct(columns)
    requires head == "INSERT INTO " + t + " (" + Join(columns, ", ") + ") VALUES ("
    ensures Shows([Lit(head)], head, head) && EndsLit([Lit(head)])
    ensures Shows([Lit(")")], ")", ")") && StartsLit([Lit(")")])
  {
    hide Join, CleanName, Shows;
    ColumnsAvoid(columns);
    NameAvoids(t);
    assert head[0] == 'I';
    CleanTextIsGood(head);
    CleanTextIsGood(")");
  }

  lemma InsertTexts(t: string, columns: seq<string>)
    ensures
      var head, bs := "INSERT INTO " + t + " (" + Join(columns, ", ") + ") VALUES (", ColumnBindings(columns);
      && head + Join(ValueTexts(bs), ", ") + ")" == InsertSqlOf(t, columns)
      && head + Join(FlatValues(bs), ", ") + ")" == FlatText(t, InsertOf(t, columns))
  {
    hide Join;
    assert Fields(ColumnBindings(columns)) == columns;
  }

  // ---------------------------------------------------------------- records

  /** `coverage` is the text that `float` has read. */
  datatype VersionRecord = VersionRecord(
    name: string, version: string, treeDigest: string, proofDigest: Option<string>, coverage: string, publisherId: string,
    publishedAt: Option<string>, yanked: bool, packageId: string, versionId: string)

  function Cell(row: Row, key: string, otherwise: string): string {
    if key in row then row[key] else otherwise
  }

  function NonEmpty(row: Row, key: string): Option<string> {
    if key in row && row[key] != "" then Some(row[key]) else None
  }

  function RowToRecord(name: string, row: Row): Try<VersionRecord> {
    if "version" !in row || "tree_digest" !in row then Raised(MissingColumn)
    else if !FloatText(Cell(row, "coverage_pct", "0")) then Raised(NotANumber)
    else if "id" !in row then Raised(MissingColumn)
    else
      Done(VersionRecord(name, row["version"], row["tree_digest"], NonEmpty(row, "proof_digest"), Cell(row, "coverage_pct", "0"),
                         Cell(row, "publisher_id", ""), NonEmpty(row, "published_at"),
                         Cell(row, "yanked", "") in ["true", "1"], Cell(row, "package_id", ""), row["id"]))
  }

  datatype Reply<+T> = Reply(file: Option<string>, answer: Try<T>)

  // ---------------------------------------------------------------- reads

  /** The first row whose version column reads as the version asked for; a missing column reads as `None`. */
  function FirstVersion(rows: seq<Row>, version: string): Option<Row> {
    if rows == [] then None
    else if Cell(rows[0], "version", "None") == version then Some(rows[0])
    else FirstVersion(rows[1..], version)
  }

  function Get(file: Option<string>, name: string, version: string, opens: bool): Reply<Option<VersionRecord>> {
    var p := Execute(file, PackageByName(), map["name" := name], opens);
    if p.answer.Raised? then Reply(p.file, Raised(p.answer.why))
    else if p.answer.value == [] then Reply(p.file, Done(None))
    else if "id" !in p.answer.value[0] then Reply(p.file, Raised(MissingColumn))
    else
      var id := p.answer.value[0]["id"];
      var v := Execute(p.file, VersionsForPackage(), map["package_id" := id], opens);
      if v.answer.Raised? then Reply(v.file, Raised(v.answer.why))
      else
        var row := FirstVersion(v.answer.value, version);
        if row.None? then Reply(v.file, Done(None))
        else
          var rec := RowToRecord(name, row.value["package_id" := id]);
          Reply(v.file, if rec.Raised? then Raised(rec.why) else Done(Some(rec.value)))
  }

  function Records(name: string, rows: seq<Row>, includeYanked: bool): Try<seq<VersionRecord>> {
    if rows == [] then Done([])
    else
      var init := Records(name, rows[..|rows| - 1], includeYanked);
      var rec := RowToRecord(name, rows[|rows| - 1]);
      if init.Raised? then init
      else if rec.Raised? then Raised(rec.why)
      else if !includeYanked && rec.value.yanked then init
      else Done(init.value + [rec.value])
  }

  function ListVersions(file: Option<string>, name: string, includeYanked: bool, opens: bool): Reply<seq<VersionRecord>> {
    var p := Execute(file, PackageByName(), map["name" := name], opens);
    if p.answer.Raised? then Reply(p.file, Raised(p.answer.why))
    else if p.answer.value == [] then Reply(p.file, Done([]))
    else if "id" !in p.answer.value[0] then Reply(p.file, Raised(MissingColumn))
    else
      var v := Execute(p.file, VersionsForPackage(), map["package_id" := p.answer.value[0]["id"]], opens);
      Reply(v.file, if v.answer.Raised? then Raised(v.answer.why) else Records(name, v.answer.value, includeYanked))
  }

  // ---------------------------------------------------------------- get-or-create and publish

  /** `id` is the uuid that would be drawn. */
  function EnsurePublisher(file: Option<string>, name: string, key: string, id: string, opens: bool): Reply<string> {
    var e := Execute(file, PublisherByName(), map["name" := name], opens);
    if e.answer.Raised? then Reply(e.file, Raised(e.answer.why))
    else if e.answer.value != [] then
      Reply(e.file, if "id" in e.answer.value[0] then Done(e.answer.value[0]["id"]) else Raised(MissingColumn))
    else
      var i := Execute(e.file, InsertPublisher(), map["id" := id, "name" := name, "public_key" := key], opens);
      Reply(i.file, if i.answer.Raised? then Raised(i.answer.why) else Done(id))
  }

  /** Empty and missing values become `-`. */
  function OrDash(v: Option<string>): string {
    if v.None? || v.value == "" then "-" else v.value
  }

  function EnsurePackage(file: Option<string>, name: string, description: Option<string>, url: Option<string>, id: string,
                         opens: bool): Reply<string> {
    var e := Execute(file, PackageByName(), map["name" := name], opens);
    if e.answer.Raised? then Reply(e.file, Raised(e.answer.why))
    else if e.answer.value != [] then
      Reply(e.file, if "id" in e.answer.value[0] then Done(e.answer.value[0]["id"]) else Raised(MissingColumn))
    else
      var params := map["id" := id, "name" := name, "description" := OrDash(description), "repository_url" := OrDash(url)];
      var i := Execute(e.file, InsertPackage(), params, opens);
      Reply(i.file, if i.answer.Raised? then Raised(i.answer.why) else Done(id))
  }

  /** The arguments of a publish, its coverage as `str` prints it, and the three uuids it would draw. */
  datatype Publication = Publication(
    publisherName: string, publicKey: string, packageName: string, version: string, treeDigest: string, coverage: string,
    proofDigest: Option<string>, description: Option<string>, repositoryUrl: Option<string>,
    publisherId: string, packageId: string, versionId: string)

  function VersionParams(p: Publication, packageId: string, publisherId: string): map<string, string> {
    map["id" := p.versionId, "package_id" := packageId, "version" := p.version, "tree_digest" := p.treeDigest,
        "proof_digest" := OrDash(p.proofDigest), "coverage_pct" := p.coverage, "publisher_id" := publisherId]
  }

  function Publish(file: Option<string>, p: Publication, opens: bool): Reply<VersionRecord> {
    var pub := EnsurePublisher(file, p.publisherName, p.publicKey, p.publisherId, opens);
    if pub.answer.Raised? then Reply(pub.file, Raised(pub.answer.why))
    else
      var pkg := EnsurePackage(pub.file, p.packageName, p.description, p.repositoryUrl, p.packageId, opens);
      if pkg.answer.Raised? then Reply(pkg.file, Raised(pkg.answer.why))
      else
        var v := Execute(pkg.file, InsertPackageVersion(), VersionParams(p, pkg.answer.value, pub.answer.value), opens);
        if v.answer.Raised? then Reply(v.file, Raised(v.answer.why))
        else
          var g := Get(v.file, p.packageName, p.version, opens);
          if g.answer.Raised? then Reply(g.file, Raised(g.answer.why))
          else Reply(g.file, if g.answer.value.None? then Raised(ReadBackFailed) else Done(g.answer.value.value))
  }

  // ---------------------------------------------------------------- the service object

  /** `RegistryOltp`; the file is the store that the command line works on. */
  class RegistryOltp {
    const store: File

    constructor (store: File)
      ensures this.store == store
    {
      this.store := store;
    }

    method RunPlan(plan: Plan, params: map<string, string>) returns (answer: Try<seq<Row>>)
      modifies store`content
      ensures Called(store.content, answer) == Execute(old(store.content), plan, params, store.writable)
    {
      var called := Execute(store.content, plan, params, store.writable);
      store.content := called.file;
      answer := called.answer;
    }

    method GetPackageVersion(name: string, version: string) returns (r: Try<Option<VersionRecord>>)
      modifies store`content
      ensures Reply(store.content, r) == Get(old(store.content), name, version, store.writable)
    {
      hide Execute;
      var pkgs := RunPlan(PackageByName(), map["name" := name]);
      if pkgs.Raised? {
        return Raised(pkgs.why);
      }
      if pkgs.value == [] {
        return Done(None);
      }
      if "id" !in pkgs.value[0] {
        return Raised(MissingColumn);
      }
      var id := pkgs.value[0]["id"];
      var rows := RunPlan(VersionsForPackage(), map["package_id" := id]);
      if rows.Raised? {
        return Raised(rows.why);
      }
      var i := 0;
      while i < |rows.value|
        invariant i <= |rows.value|
        invariant FirstVersion(rows.value[i..], version) == FirstVersion(rows.value, version)
      {
        var row := rows.value[i];
        if Cell(row, "version", "None") == version {
          var rec := RowToRecord(name, row["package_id" := id]);
          return if rec.Raised? then Raised(rec.why) else Done(Some(rec.value));
        }
        i := i + 1;
      }
      r := Done(None);
    }

    method ListPackageVersions(name: string, includeYanked: bool) returns (r: Try<seq<VersionRecord>>)
      modifies store`content
      ensures Reply(store.content, r) == ListVersions(old(store.content), name, includeYanked, store.writable)
    {
      hide Execute, RowToRecord;
      var pkgs := RunPlan(PackageByName(), map["name" := name]);
      if pkgs.Raised? {
        return Raised(pkgs.why);
      }
      if pkgs.value == [] {
        return Done([]);
      }
      if "id" !in pkgs.value[0] {
        return Raised(MissingColumn);
      }
      var rows := RunPlan(VersionsForPackage(), map["package_id" := pkgs.value[0]["id"]]);
      if rows.Raised? {
        return Raised(rows.why);
      }
      var out := [];
      for i := 0 to |rows.value|
        invariant Records(name, rows.value[..i], includeYanked) == Done(out)
      {
        assert rows.value[..i + 1][..i] == rows.value[..i];
        var rec := RowToRecord(name, rows.value[i]);
        if rec.Raised? {
          RecordsStop(name, rows.value, includeYanked, i + 1);
          return Raised(rec.why);
        }
        if !includeYanked && rec.value.yanked {
          continue;
        }
        out := out + [rec.value];
      }
      assert rows.value[..|rows.value|] == rows.value;
      r := Done(out);
    }

    method EnsurePublisherId(name: string, key: string, id: string) returns (r: Try<string>)
      modifies store`content
      ensures Reply(store.content, r) == EnsurePublisher(old(store.content), name, key, id, store.writable)
    {
      hide Execute;
      var existing := RunPlan(PublisherByName(), map["name" := name]);
      if existing.Raised? {
        return Raised(existing.why);
      }
      if existing.value != [] {
        return if "id" in existing.value[0] then Done(existing.value[0]["id"]) else Raised(MissingColumn);
      }
      var inserted := RunPlan(InsertPublisher(), map["id" := id, "name" := name, "public_key" := key]);
      r := if inserted.Raised? then Raised(inserted.why) else Done(id);
    }

    method EnsurePackageId(name: string, description: Option<string>, url: Option<string>, id: string) returns (r: Try<string>)
      modifies store`content
      ensures Reply(store.content, r) == EnsurePackage(old(store.content), name, description, url, id, store.writable)
    {
      hide Execute;
      var existing := RunPlan(PackageByName(), map["name" := name]);
      if existing.Raised? {
        return Raised(existing.why);
      }
      if existing.value != [] {
        return if "id" in existing.value[0] then Done(existing.value[0]["id"]) else Raised(MissingColumn);
      }
      var inserted := RunPlan(InsertPackage(), map["id" := id, "name" := name, "description" := OrDash(description),
                                                 "repository_url" := OrDash(url)]);
      r := if inserted.Raised? then Raised(inserted.why) else Done(id);
    }

    method PublishPackageVersion(p: Publication) returns (r: Try<VersionRecord>)
      modifies store`content
      ensures Reply(store.content, r) == Publish(old(store.content), p, store.writable)
    {
      hide Execute, EnsurePublisher, EnsurePackage, Get;
      var pub := EnsurePublisherId(p.publisherName, p.publicKey, p.publisherId);
      if pub.Raised? {
        return Raised(pub.why);
      }
      var pkg := EnsurePackageId(p.packageName, p.description, p.repositoryUrl, p.packageId);
      if pkg.Raised? {
        return Raised(pkg.why);
      }
      var v := RunPlan(InsertPackageVersion(), VersionParams(p, pkg.value, pub.value));
      if v.Raised? {
        return Raised(v.why);
      }
      var rec := GetPackageVersion(p.packageName, p.version);
      if rec.Raised? {
        return Raised(rec.why);
      }
      r := if rec.value.None? then Raised(ReadBackFailed) else Done(rec.value.value);
    }
  }

  lemma {:induction false} RecordsStop(name: string, rows: seq<Row>, includeYanked: bool, n: nat)
    requires n <= |rows| && Records(name, rows[..n], includeYanked).Raised?
    ensures Records(name, rows, includeYanked) == Records(name, rows[..n], includeYanked)
    decreases |rows|
  {
    hide RowToRecord;
    if n < |rows| {
      var m := |rows| - 1;
      assert rows[..m][..n] == rows[..n];
      RecordsStop(name, rows[..m], includeYanked, n);
    } else {
      assert rows[..n] == rows;
    }
  }
}
