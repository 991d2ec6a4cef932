/**
 Safety of the registry over every run of publishes and reads, including publishes that
 stop half-way: the run keeps every row as it was sent if and only if every value that
 reaches the store is safe, and then its names, references and records are.
 */
module RegistryRuns {
  import opened Text
  import opened Catalog
  import opened Liq
  import opened Flatten
  import opened Lowering
  import opened Compiler
  import opened Native
  import opened Pipeline
  import opened ReadPipeline
  import opened Snapshot
  import opened NativeEngine
  import opened Transport
  import opened Bridge
  import opened Registry
  import opened RegistryStore
  import opened PyFloat

  // ---------------------------------------------------------------- the invariant

  predicate Unique(rows: seq<Row>, column: string) {
    forall i, j :: 0 <= i < j < |rows| && column in rows[i] && column in rows[j] ==> rows[i][column] != rows[j][column]
  }

  predicate HasId(rows: seq<Row>, id: string) {
    exists j :: 0 <= j < |rows| && "id" in rows[j] && rows[j]["id"] == id
  }

  predicate Refers(rows: seq<Row>, column: string, target: seq<Row>) {
    forall i :: 0 <= i < |rows| ==> column in rows[i] && HasId(target, rows[i][column])
  }

  predicate PrintableIds(rows: seq<Row>) {
    forall i :: 0 <= i < |rows| && "id" in rows[i] ==> AllPrintable(rows[i]["id"])
  }

  /** Every coverage is the text of a number. */
  predicate Numbered(rows: seq<Row>) {
    forall i :: 0 <= i < |rows| ==> FloatText(Cell(rows[i], "coverage_pct", "0"))
  }

  /** Names are unique, and every version belongs to a package and a publisher that exist and has a numeric coverage. */
  predicate Consistent(pubs: seq<Row>, pkgs: seq<Row>, vers: seq<Row>) {
    && Shaped(pubs, PUBLISHER_COLUMNS) && Shaped(pkgs, PACKAGE_COLUMNS) && Shaped(vers, VERSION_COLUMNS)
    && Unique(pubs, "name") && Unique(pkgs, "name")
    && PrintableIds(pubs) && PrintableIds(pkgs)
    && Refers(vers, "package_id", pkgs) && Refers(vers, "publisher_id", pubs)
    && Numbered(vers)
  }

  predicate RegistryOk(tables: Tables) {
    Kept(tables) && Consistent(RowsOf(tables, "publishers"), RowsOf(tables, "packages"), RowsOf(tables, "package_versions"))
  }

  lemma RefersGrows(rows: seq<Row>, column: string, a: seq<Row>, b: seq<Row>)
    requires a <= b && Refers(rows, column, a)
    ensures Refers(rows, column, b)
  {
    forall i | 0 <= i < |rows|
      ensures column in rows[i] && HasId(b, rows[i][column])
    {
    }
  }

  lemma ShapedGrows(rows: seq<Row>, row: Row, columns: seq<string>)
    requires Shaped(rows, columns) && row.Keys == set c | c in columns
    ensures Shaped(rows + [row], columns)
  {
  }

  lemma UniqueGrows(rows: seq<Row>, row: Row)
    requires Unique(rows, "name") && "name" in row
    requires forall i :: 0 <= i < |rows| ==> !Matches(rows[i], Equals("name", row["name"]))
    ensures Unique(rows + [row], "name")
  {
  }

  lemma AddPublisher(pubs: seq<Row>, pkgs: seq<Row>, vers: seq<Row>, row: Row)
    requires Consistent(pubs, pkgs, vers) && (row.Keys == set c | c in PUBLISHER_COLUMNS) && AllPrintable(Cell(row, "id", ""))
    requires forall i :: 0 <= i < |pubs| ==> !Matches(pubs[i], Equals("name", Cell(row, "name", "")))
    ensures Consistent(pubs + [row], pkgs, vers)
  {
    hide HasId, AllPrintable, Shaped, Unique, Refers, Numbered;
    assert "id" in PUBLISHER_COLUMNS && "name" in PUBLISHER_COLUMNS;
    ShapedGrows(pubs, row, PUBLISHER_COLUMNS);
    UniqueGrows(pubs, row);
    RefersGrows(vers, "publisher_id", pubs, pubs + [row]);
  }

  lemma AddPackage(pubs: seq<Row>, pkgs: seq<Row>, vers: seq<Row>, row: Row)
    requires Consistent(pubs, pkgs, vers) && (row.Keys == set c | c in PACKAGE_COLUMNS) && AllPrintable(Cell(row, "id", ""))
    requires forall i :: 0 <= i < |pkgs| ==> !Matches(pkgs[i], Equals("name", Cell(row, "name", "")))
    ensures Consistent(pubs, pkgs + [row], vers)
  {
    hide HasId, AllPrintable, Shaped, Unique, Refers, Numbered;
    assert "id" in PACKAGE_COLUMNS && "name" in PACKAGE_COLUMNS;
    ShapedGrows(pkgs, row, PACKAGE_COLUMNS);
    UniqueGrows(pkgs, row);
    RefersGrows(vers, "package_id", pkgs, pkgs + [row]);
  }

  lemma AddVersion(pubs: seq<Row>, pkgs: seq<Row>, vers: seq<Row>, row: Row)
    requires Consistent(pubs, pkgs, vers) && (row.Keys == set c | c in VERSION_COLUMNS)
    requires HasId(pkgs, Cell(row, "package_id", "")) && HasId(pubs, Cell(row, "publisher_id", ""))
    requires FloatText(Cell(row, "coverage_pct", "0"))
    ensures Consistent(pubs, pkgs, vers + [row])
  {
    hide HasId, AllPrintable, Shaped, Unique, PrintableIds, FloatText;
    assert "package_id" in VERSION_COLUMNS && "publisher_id" in VERSION_COLUMNS;
    ShapedGrows(vers, row, VERSION_COLUMNS);
  }

  /** A shaped table filtered by name: a hit is a row of that name, no hit means the name is free. */
  lemma FilterByName(rows: seq<Row>, columns: seq<string>, view: seq<string>, name: string)
    requires Shaped(rows, columns) && "id" in columns && "id" in view && "name" in columns
    ensures
      var hits := FilterProject(rows, Equals("name", name), Some(view));
      if hits == [] then forall i :: 0 <= i < |rows| ==> !Matches(rows[i], Equals("name", name))
      else "id" in hits[0] && Named(rows, hits[0]["id"], name)
  {
    hide FilterProject, ProjectRow;
    var f := Equals("name", name);
    var hits := FilterProject(rows, f, Some(view));
    if hits == [] {
      NoneMatches(rows, f, view);
    } else {
      FilteredFrom(rows, f, Some(view), 0);
      var i :| 0 <= i < |rows| && Matches(rows[i], f) && ProjectRow(rows[i], Some(view)) == hits[0];
      IdIsLower();
      ProjectedCell(rows[i], view, "id");
    }
  }

  lemma IdIsLower()
    ensures Lower("id") == "id"
  {
  }

  /** A row with this id and this name. */
  predicate Named(rows: seq<Row>, id: string, name: string) {
    exists j :: 0 <= j < |rows| && "id" in rows[j] && rows[j]["id"] == id && "name" in rows[j] && rows[j]["name"] == name
  }

  lemma NamedHasId(rows: seq<Row>, id: string, name: string)
    requires Named(rows, id, name)
    ensures HasId(rows, id) && (PrintableIds(rows) ==> AllPrintable(id))
  {
  }

  lemma NewRowIsNamed(rows: seq<Row>, row: Row)
    requires "id" in row && "name" in row
    ensures Named(rows + [row], row["id"], row["name"])
  {
    assert (rows + [row])[|rows|] == row;
  }

  lemma PublisherParams(id: string, name: string, key: string)
    ensures ParamsFor(PUBLISHER_COLUMNS, map["id" := id, "name" := name, "public_key" := key])
  {
  }

  lemma PackageParams(id: string, name: string, d: string, u: string)
    ensures ParamsFor(PACKAGE_COLUMNS, map["id" := id, "name" := name, "description" := d, "repository_url" := u])
  {
  }

  lemma VersionParamsFor(p: Publication, pkg: string, pub: string)
    ensures ParamsFor(VERSION_COLUMNS, VersionParams(p, pkg, pub))
  {
  }

  // ---------------------------------------------------------------- the writes of a publish

  function PublisherParamsOf(id: string, name: string, key: string): map<string, string> {
    map["id" := id, "name" := name, "public_key" := key]
  }

  function PackageParamsOf(id: string, name: string, d: Option<string>, u: Option<string>): map<string, string> {
    map["id" := id, "name" := name, "description" := OrDash(d), "repository_url" := OrDash(u)]
  }

  /** An insert that was accepted. */
  function WriteOf(file: Option<string>, k: Kind, params: map<string, string>, opens: bool): seq<Write> {
    var c := Execute(file, InsertingPlan(k), params, opens);
    if c.answer.Done? then [Write(file, k, params, c.file)] else []
  }

  function PublisherWrites(file: Option<string>, name: string, key: string, id: string, opens: bool): seq<Write> {
    var e := Execute(file, PublisherByName(), map["name" := name], opens);
    if e.answer == Done([]) then WriteOf(e.file, PublisherRow, PublisherParamsOf(id, name, key), opens) else []
  }

  function PackageWrites(file: Option<string>, name: string, d: Option<string>, u: Option<string>, id: string, opens: bool)
    : seq<Write>
  {
    var e := Execute(file, PackageByName(), map["name" := name], opens);
    if e.answer == Done([]) then WriteOf(e.file, PackageRow, PackageParamsOf(id, name, d, u), opens) else []
  }

  /** The accepted inserts of a publish, in order. */
  function PublishWrites(file: Option<string>, p: Publication, opens: bool): seq<Write> {
    var pub := EnsurePublisher(file, p.publisherName, p.publicKey, p.publisherId, opens);
    PublisherWrites(file, p.publisherName, p.publicKey, p.publisherId, opens) +
    if pub.answer.Raised? then []
    else
      var pkg := EnsurePackage(pub.file, p.packageName, p.description, p.repositoryUrl, p.packageId, opens);
      PackageWrites(pub.file, p.packageName, p.description, p.repositoryUrl, p.packageId, opens) +
      if pkg.answer.Raised? then []
      else WriteOf(pkg.file, VersionRow, VersionParams(p, pkg.answer.value, pub.answer.value), opens)
  }

  predicate AllSafe(ws: seq<Write>) {
    forall i :: 0 <= i < |ws| ==> SafeFor(ws[i].kind, ws[i].params)
  }

  predicate AllKept(ws: seq<Write>) {
    forall i :: 0 <= i < |ws| ==> KeptAsSent(ws[i])
  }

  lemma AllSafeConcat(a: seq<Write>, b: seq<Write>)
    ensures AllSafe(a + b) <==> AllSafe(a) && AllSafe(b)
  {
    hide SafeFor;
    if AllSafe(a + b) {
      assert forall i :: 0 <= i < |a| ==> a[i] == (a + b)[i];
      assert forall i :: 0 <= i < |b| ==> b[i] == (a + b)[|a| + i];
    }
  }

  lemma AllKeptConcat(a: seq<Write>, b: seq<Write>)
    ensures AllKept(a + b) <==> AllKept(a) && AllKept(b)
  {
    hide KeptAsSent;
    if AllKept(a + b) {
      assert forall i :: 0 <= i < |a| ==> a[i] == (a + b)[i];
      assert forall i :: 0 <= i < |b| ==> b[i] == (a + b)[|a| + i];
    }
  }

  /** What one insert does to kept tables. */
  lemma WriteOfExactly(file: Option<string>, k: Kind, params: map<string, string>, opens: bool)
    requires ParamsFor(ColumnsOf(k), params) && Kept(Load(file))
    ensures
      var c, ws := Execute(file, InsertingPlan(k), params, opens), WriteOf(file, k, params, opens);
      && (AllKept(ws) <==> AllSafe(ws))
      && (c.answer.Raised? ==> c.file == file && ws == [])
      && (c.answer.Done? && AllSafe(ws) ==>
            && c.answer == Done([]) && Kept(Load(c.file))
            && Load(c.file) == Append(Load(file), TableOf(k), ReceivedRow(ColumnsOf(k), params)))
  {
    hide Execute, Load, KeptAsSent, SafeFor, Kept, Append, ReceivedRow, InsertingPlan, ParamsFor;
    WriteExactly(file, k, params, opens);
    var c, ws := Execute(file, InsertingPlan(k), params, opens), WriteOf(file, k, params, opens);
    if c.answer.Done? {
      assert ws == [Write(file, k, params, c.file)];
      assert ws[0].kind == k && ws[0].params == params;
    }
  }

  // ---------------------------------------------------------------- get-or-create

  /** A lookup over kept tables: refused, or answered with the rows of that name. */
  lemma LookUp(file: Option<string>, k: Kind, value: string, opens: bool)
    requires Kept(Load(file))
    ensures
      var c := Execute(file, ReadingPlan(k), map[KeyOf(k) := value], opens);
      c == Called(file, if Find(ReadingPlan(k).sql, value).Some? then Raised(ParameterMismatch)
                        else Done(FilterProject(RowsOf(Load(file), TableOf(k)), Equals(KeyOf(k), Received(value)), Some(ViewOf(k)))))
  {
    hide *;
    KindIsClean(k);
    ReadingPlanIs(k);
    KeptView(Load(file), k);
    ExecuteRead(file, TableOf(k), ViewOf(k), KeyOf(k), if k.VersionRow? then None else Some(1), value, opens);
    FilteredRowsArePlain(RowsOf(Load(file), TableOf(k)), Equals(KeyOf(k), Received(value)), ViewOf(k));
  }

  lemma LookUpPackage(file: Option<string>, name: string, opens: bool)
    requires Kept(Load(file))
    ensures
      Execute(file, PackageByName(), map["name" := name], opens) ==
      Called(file, if Find(PackageByName().sql, name).Some? then Raised(ParameterMismatch)
                   else Done(FilterProject(RowsOf(Load(file), "packages"), Equals("name", Received(name)), Some(PACKAGE_VIEW))))
  {
    hide Execute, Load, Kept, Received, SelectSql, FilterProject, Find, RowsOf;
    PlansOfKinds();
    LookUp(file, PackageRow, name, opens);
  }

  lemma LookUpVersions(file: Option<string>, id: string, opens: bool)
    requires Kept(Load(file))
    ensures
      Execute(file, VersionsForPackage(), map["package_id" := id], opens) ==
      Called(file, if Find(VersionsForPackage().sql, id).Some? then Raised(ParameterMismatch)
                   else Done(FilterProject(RowsOf(Load(file), "package_versions"), Equals("package_id", Received(id)), Some(VERSION_VIEW))))
  {
    hide Execute, Load, Kept, Received, SelectSql, FilterProject, Find, RowsOf;
    PlansOfKinds();
    LookUp(file, VersionRow, id, opens);
  }

  /** Get-or-create of a publisher keeps the invariant and touches no other table, if what it inserts is safe. */
  lemma EnsurePublisherKeeps(file: Option<string>, name: string, key: string, id: string, opens: bool)
    requires RegistryOk(Load(file)) && AllPrintable(id)
    ensures
      var ws := PublisherWrites(file, name, key, id, opens);
      var r := EnsurePublisher(file, name, key, id, opens);
      var a, b := Load(file), Load(r.file);
      && (AllKept(ws) <==> AllSafe(ws))
      && (AllSafe(ws) ==>
            && RegistryOk(b) && Behind(a, b)
            && RowsOf(b, "packages") == RowsOf(a, "packages") && RowsOf(b, "package_versions") == RowsOf(a, "package_versions")
            && (r.answer.Done? ==> Named(RowsOf(b, "publishers"), r.answer.value, Received(name))))
  {
    hide Execute, Load, Consistent, Kept, Received, SelectSql, InsertSqlOf, Named, AllPrintable, FilterProject, ReadPlan,
         InsertPlan, AllKept, AllSafe, WriteOf, ReceivedRow, Append, RowsOf, Behind, Shaped, Unique, Refers, PrintableIds, ParamsFor,
         Matches, Find;
    var a := Load(file);
    var pubs, pkgs, vers := RowsOf(a, "publishers"), RowsOf(a, "packages"), RowsOf(a, "package_versions");
    ConsistentShapes(pubs, pkgs, vers);
    LookUp(file, PublisherRow, name, opens);
    FilterByName(pubs, PUBLISHER_COLUMNS, PUBLISHER_VIEW, Received(name));
    BehindSelf(a);
    NoWrites();
    PlansOfKinds();
    var params := PublisherParamsOf(id, name, key);
    PublisherParams(id, name, key);
    if FilterProject(pubs, Equals("name", Received(name)), Some(PUBLISHER_VIEW)) == [] {
      WriteOfExactly(file, PublisherRow, params, opens);
      var row := ReceivedRow(PUBLISHER_COLUMNS, params);
      ReceivedCell(PUBLISHER_COLUMNS, params, "id");
      ReceivedCell(PUBLISHER_COLUMNS, params, "name");
      ReceivedIsPrintable(id);
      AppendRows(a, "publishers", row);
      NewRowIsNamed(pubs, row);
      AddPublisher(pubs, pkgs, vers, row);
    }
  }

  lemma NoWrites()
    ensures AllKept([]) && AllSafe([])
  {
  }

  lemma ConsistentShapes(pubs: seq<Row>, pkgs: seq<Row>, vers: seq<Row>)
    requires Consistent(pubs, pkgs, vers)
    ensures Shaped(pubs, PUBLISHER_COLUMNS) && Shaped(pkgs, PACKAGE_COLUMNS) && Shaped(vers, VERSION_COLUMNS)
    ensures PrintableIds(pubs) && PrintableIds(pkgs) && Refers(vers, "package_id", pkgs)
  {
  }

  /** The same for packages. */
  lemma EnsurePackageKeeps(file: Option<string>, name: string, d: Option<string>, u: Option<string>, id: string, opens: bool)
    requires RegistryOk(Load(file)) && AllPrintable(id)
    ensures
      var ws := PackageWrites(file, name, d, u, id, opens);
      var r := EnsurePackage(file, name, d, u, id, opens);
      var a, b := Load(file), Load(r.file);
      && (AllKept(ws) <==> AllSafe(ws))
      && (AllSafe(ws) ==>
            && RegistryOk(b) && Behind(a, b)
            && RowsOf(b, "publishers") == RowsOf(a, "publishers") && RowsOf(b, "package_versions") == RowsOf(a, "package_versions")
            && (r.answer.Done? ==> Named(RowsOf(b, "packages"), r.answer.value, Received(name))))
  {
    hide Execute, Load, Consistent, Kept, Received, SelectSql, InsertSqlOf, Named, AllPrintable, FilterProject, ReadPlan,
         InsertPlan, AllKept, AllSafe, WriteOf, ReceivedRow, Append, RowsOf, Behind, Shaped, Unique, Refers, PrintableIds, ParamsFor,
         Matches, Find, OrDash;
    var a := Load(file);
    var pubs, pkgs, vers := RowsOf(a, "publishers"), RowsOf(a, "packages"), RowsOf(a, "package_versions");
    ConsistentShapes(pubs, pkgs, vers);
    LookUp(file, PackageRow, name, opens);
    FilterByName(pkgs, PACKAGE_COLUMNS, PACKAGE_VIEW, Received(name));
    BehindSelf(a);
    NoWrites();
    PlansOfKinds();
    var params := PackageParamsOf(id, name, d, u);
    PackageParams(id, name, OrDash(d), OrDash(u));
    if FilterProject(pkgs, Equals("name", Received(name)), Some(PACKAGE_VIEW)) == [] {
      WriteOfExactly(file, PackageRow, params, opens);
      var row := ReceivedRow(PACKAGE_COLUMNS, params);
      ReceivedCell(PACKAGE_COLUMNS, params, "id");
      ReceivedCell(PACKAGE_COLUMNS, params, "name");
      ReceivedIsPrintable(id);
      AppendRows(a, "packages", row);
      NewRowIsNamed(pkgs, row);
      AddPackage(pubs, pkgs, vers, row);
    }
  }

  // ---------------------------------------------------------------- what Get answers

  /** `get_package_version` over good tables, without the store around it. */
  function GetAnswer(tables: Tables, name: string, version: string): Try<Option<VersionRecord>> {
    if Find(PackageByName().sql, name).Some? then Raised(ParameterMismatch)
    else
      var pkgs := FilterProject(RowsOf(tables, "packages"), Equals("name", Received(name)), Some(PACKAGE_VIEW));
      if pkgs == [] then Done(None)
      else if "id" !in pkgs[0] then Raised(MissingColumn)
      else
        var id := pkgs[0]["id"];
        if Find(VersionsForPackage().sql, id).Some? then Raised(ParameterMismatch)
        else
          var rows := FilterProject(RowsOf(tables, "package_versions"), Equals("package_id", Received(id)), Some(VERSION_VIEW));
          var row := FirstVersion(rows, version);
          if row.None? then Done(None)
          else
            var rec := RowToRecord(name, row.value["package_id" := id]);
            if rec.Raised? then Raised(rec.why) else Done(Some(rec.value))
  }

  lemma GetIs(file: Option<string>, name: string, version: string, opens: bool)
    requires Kept(Load(file))
    ensures Get(file, name, version, opens) == Reply(file, GetAnswer(Load(file), name, version))
  {
    hide Execute, Load, Kept, Received, FilterProject, RowToRecord, FirstVersion, Find, PackageByName, VersionsForPackage, RowsOf;
    LookUpPackage(file, name, opens);
    var pkgs := FilterProject(RowsOf(Load(file), "packages"), Equals("name", Received(name)), Some(PACKAGE_VIEW));
    if Find(PackageByName().sql, name).None? && pkgs != [] && "id" in pkgs[0] {
      LookUpVersions(file, pkgs[0]["id"], opens);
    }
  }

  /** Reading never changes the file, whatever is stored. */
  lemma ReadsLeaveFile(file: Option<string>, name: string, version: string, includeYanked: bool, opens: bool)
    ensures Get(file, name, version, opens).file == file
    ensures ListVersions(file, name, includeYanked, opens).file == file
  {
    hide Execute, Records, RowToRecord, FirstVersion, PackageByName, VersionsForPackage;
    PlanReadsLeaveFile(file, name, opens);
    var p := Execute(file, PackageByName(), map["name" := name], opens);
    if p.answer.Done? && p.answer.value != [] && "id" in p.answer.value[0] {
      PlanReadsLeaveFile(file, p.answer.value[0]["id"], opens);
    }
  }

  lemma PlanReadsLeaveFile(file: Option<string>, value: string, opens: bool)
    ensures Execute(file, PackageByName(), map["name" := value], opens).file == file
    ensures Execute(file, VersionsForPackage(), map["package_id" := value], opens).file == file
  {
    hide Execute, Load, Received, SelectSql, FilterProject, Find, RowsOf, Answer;
    TableNamesAreClean();
    ShortNamesAreClean();
    ViewsAreClean();
    ExecuteRead(file, "packages", PACKAGE_VIEW, "name", Some(1), value, opens);
    ExecuteRead(file, "package_versions", VERSION_VIEW, "package_id", None, value, opens);
  }

  lemma {:induction false} FirstVersionStays(a: seq<Row>, b: seq<Row>, version: string)
    requires a <= b && FirstVersion(a, version).Some?
    ensures FirstVersion(b, version) == FirstVersion(a, version)
  {
    if Cell(a[0], "version", "None") != version {
      FirstVersionStays(a[1..], b[1..], version);
    }
  }

  /** A record that was found stays found, whatever is appended. */
  lemma FoundStays(a: Tables, b: Tables, name: string, version: string)
    requires Behind(a, b) && GetAnswer(a, name, version).Done? && GetAnswer(a, name, version).value.Some?
    ensures GetAnswer(b, name, version) == GetAnswer(a, name, version)
  {
    hide FilterProject, RowToRecord, FirstVersion, Find, SelectSql, RowsOf;
    var pa, pb := RowsOf(a, "packages"), RowsOf(b, "packages");
    assert pa <= pb && RowsOf(a, "package_versions") <= RowsOf(b, "package_versions");
    FilterGrows(pa, pb, Equals("name", Received(name)), Some(PACKAGE_VIEW));
    var id := FilterProject(pa, Equals("name", Received(name)), Some(PACKAGE_VIEW))[0]["id"];
    var f := Equals("package_id", Received(id));
    var va, vb := RowsOf(a, "package_versions"), RowsOf(b, "package_versions");
    FilterGrows(va, vb, f, Some(VERSION_VIEW));
    FirstVersionStays(FilterProject(va, f, Some(VERSION_VIEW)), FilterProject(vb, f, Some(VERSION_VIEW)), version);
  }

  // ---------------------------------------------------------------- publish

  /** What the source's types give: drawn uuids are printable ASCII, and the coverage is a printed float. */
  predicate WellTyped(p: Publication) {
    AllPrintable(p.publisherId) && AllPrintable(p.packageId) && AllPrintable(p.coverage) && FloatText(p.coverage)
  }

  lemma VersionWrite(file: Option<string>, params: map<string, string>, opens: bool)
    requires ParamsFor(VERSION_COLUMNS, params) && Kept(Load(file))
    ensures
      var c, ws := Execute(file, InsertPackageVersion(), params, opens), WriteOf(file, VersionRow, params, opens);
      && (AllKept(ws) <==> AllSafe(ws))
      && (c.answer.Raised? ==> c.file == file && ws == [])
      && (c.answer.Done? && AllSafe(ws) ==>
            Kept(Load(c.file)) && Load(c.file) == Append(Load(file), "package_versions", ReceivedRow(VERSION_COLUMNS, params)))
  {
    hide Execute, Load, AllKept, AllSafe, Kept, Append, ReceivedRow, InsertPlan, ParamsFor, WriteOf;
    PlansOfKinds();
    WriteOfExactly(file, VersionRow, params, opens);
  }

  /** Inserting the version row. */
  lemma VersionRowKeeps(file: Option<string>, p: Publication, pkg: string, pub: string, opens: bool)
    requires RegistryOk(Load(file))
    requires HasId(RowsOf(Load(file), "packages"), pkg) && HasId(RowsOf(Load(file), "publishers"), pub)
    requires AllPrintable(pkg) && AllPrintable(pub) && WellTyped(p)
    ensures
      var params := VersionParams(p, pkg, pub);
      var c, ws := Execute(file, InsertPackageVersion(), params, opens), WriteOf(file, VersionRow, params, opens);
      && (AllKept(ws) <==> AllSafe(ws))
      && (c.answer.Raised? ==> c.file == file)
      && (AllSafe(ws) ==> RegistryOk(Load(c.file)) && Behind(Load(file), Load(c.file)))
      && (AllSafe(ws) && c.answer.Done? ==>
            Load(c.file) == Append(Load(file), "package_versions", ReceivedRow(VERSION_COLUMNS, params)))
  {
    hide Execute, Load, Consistent, Kept, Received, HasId, AllPrintable, RowsOf, InsertPackageVersion, Cell,
         Append, ParamsFor, ReceivedRow, Behind, WriteOf, AllKept, AllSafe, VersionParams, FloatText, WellTyped;
    var a := Load(file);
    var params := VersionParams(p, pkg, pub);
    VersionParamsFor(p, pkg, pub);
    VersionWrite(file, params, opens);
    var row := ReceivedRow(VERSION_COLUMNS, params);
    VersionRefers(p, pkg, pub);
    AppendRows(a, "package_versions", row);
    BehindSelf(a);
    AddVersion(RowsOf(a, "publishers"), RowsOf(a, "packages"), RowsOf(a, "package_versions"), row);
  }

  lemma VersionRefers(p: Publication, pkg: string, pub: string)
    requires AllPrintable(pkg) && AllPrintable(pub) && WellTyped(p)
    ensures var row := ReceivedRow(VERSION_COLUMNS, VersionParams(p, pkg, pub));
            && row.Keys == (set c | c in VERSION_COLUMNS)
            && Cell(row, "package_id", "") == pkg && Cell(row, "publisher_id", "") == pub
            && FloatText(Cell(row, "coverage_pct", "0"))
  {
    hide Received, AllPrintable, OrDash, ReceivedRow, ParamsFor, FloatText;
    var params := VersionParams(p, pkg, pub);
    VersionParamsFor(p, pkg, pub);
    ReceivedCell(VERSION_COLUMNS, params, "package_id");
    ReceivedCell(VERSION_COLUMNS, params, "publisher_id");
    ReceivedCell(VERSION_COLUMNS, params, "coverage_pct");
    ReceivedIsPrintable(pkg);
    ReceivedIsPrintable(pub);
    ReceivedIsPrintable(p.coverage);
  }

  /** The two get-or-create steps of a publish. */
  lemma BeforeVersionKeeps(file: Option<string>, p: Publication, opens: bool)
    requires RegistryOk(Load(file)) && WellTyped(p)
    requires AllSafe(PublisherWrites(file, p.publisherName, p.publicKey, p.publisherId, opens))
    ensures
      var pub := EnsurePublisher(file, p.publisherName, p.publicKey, p.publisherId, opens);
      && RegistryOk(Load(pub.file)) && Behind(Load(file), Load(pub.file))
      && (pub.answer.Done? ==>
            var ws := PackageWrites(pub.file, p.packageName, p.description, p.repositoryUrl, p.packageId, opens);
            var pkg := EnsurePackage(pub.file, p.packageName, p.description, p.repositoryUrl, p.packageId, opens);
            && (AllKept(ws) <==> AllSafe(ws))
            && (AllSafe(ws) ==>
                  && RegistryOk(Load(pkg.file)) && Behind(Load(file), Load(pkg.file))
                  && (pkg.answer.Done? ==>
                        && HasId(RowsOf(Load(pkg.file), "publishers"), pub.answer.value) && AllPrintable(pub.answer.value)
                        && HasId(RowsOf(Load(pkg.file), "packages"), pkg.answer.value) && AllPrintable(pkg.answer.value))))
  {
    hide EnsurePublisher, EnsurePackage, Load, Consistent, Kept, HasId, AllPrintable, OrDash, Received, Named, RowsOf, PrintableIds,
         AllKept, AllSafe, PublisherWrites, PackageWrites, Behind;
    EnsurePublisherKeeps(file, p.publisherName, p.publicKey, p.publisherId, opens);
    var pub := EnsurePublisher(file, p.publisherName, p.publicKey, p.publisherId, opens);
    if pub.answer.Done? {
      EnsurePackageKeeps(pub.file, p.packageName, p.description, p.repositoryUrl, p.packageId, opens);
      var pkg := EnsurePackage(pub.file, p.packageName, p.description, p.repositoryUrl, p.packageId, opens);
      var ws := PackageWrites(pub.file, p.packageName, p.description, p.repositoryUrl, p.packageId, opens);
      if AllSafe(ws) {
        var t := Load(pkg.file);
        BehindTransitive(Load(file), Load(pub.file), t);
        ConsistentShapes(RowsOf(t, "publishers"), RowsOf(t, "packages"), RowsOf(t, "package_versions"));
        if pkg.answer.Done? {
          NamedHasId(RowsOf(t, "publishers"), pub.answer.value, Received(p.publisherName));
          NamedHasId(RowsOf(t, "packages"), pkg.answer.value, Received(p.packageName));
        }
      }
    }
  }

  /** The four places where a publish can end. */
  lemma PublishCases(file: Option<string>, p: Publication, opens: bool)
    ensures
      var pub := EnsurePublisher(file, p.publisherName, p.publicKey, p.publisherId, opens);
      if pub.answer.Raised? then Publish(file, p, opens) == Reply(pub.file, Raised(pub.answer.why))
      else
        var pkg := EnsurePackage(pub.file, p.packageName, p.description, p.repositoryUrl, p.packageId, opens);
        if pkg.answer.Raised? then Publish(file, p, opens) == Reply(pkg.file, Raised(pkg.answer.why))
        else
          var v := Execute(pkg.file, InsertPackageVersion(), VersionParams(p, pkg.answer.value, pub.answer.value), opens);
          if v.answer.Raised? then Publish(file, p, opens) == Reply(v.file, Raised(v.answer.why))
          else
            var g := Get(v.file, p.packageName, p.version, opens);
            && Publish(file, p, opens).file == g.file
            && (Publish(file, p, opens).answer.Done? ==> g.answer == Done(Some(Publish(file, p, opens).answer.value)))
  {
    hide EnsurePublisher, EnsurePackage, Execute, Get, VersionParams, InsertPackageVersion;
  }

  lemma WritesCases(file: Option<string>, p: Publication, opens: bool)
    ensures
      var pub := EnsurePublisher(file, p.publisherName, p.publicKey, p.publisherId, opens);
      var a := PublisherWrites(file, p.publisherName, p.publicKey, p.publisherId, opens);
      if pub.answer.Raised? then PublishWrites(file, p, opens) == a + []
      else
        var pkg := EnsurePackage(pub.file, p.packageName, p.description, p.repositoryUrl, p.packageId, opens);
        var b := PackageWrites(pub.file, p.packageName, p.description, p.repositoryUrl, p.packageId, opens);
        if pkg.answer.Raised? then PublishWrites(file, p, opens) == a + (b + [])
        else PublishWrites(file, p, opens) == a + (b + WriteOf(pkg.file, VersionRow, VersionParams(p, pkg.answer.value, pub.answer.value), opens))
  {
    hide EnsurePublisher, EnsurePackage, PublisherWrites, PackageWrites, WriteOf, VersionParams;
  }

  /**
   A publish keeps every row as it was sent if and only if every value that reaches the
   store is safe. Then it keeps the invariant wherever it stops, and the record it
   returns is what a read then answers.
   */
  lemma PublishKeeps(file: Option<string>, p: Publication, opens: bool)
    requires RegistryOk(Load(file)) && WellTyped(p)
    ensures
      var ws, r := PublishWrites(file, p, opens), Publish(file, p, opens);
      && (AllKept(ws) <==> AllSafe(ws))
      && (AllSafe(ws) ==>
            && RegistryOk(Load(r.file)) && Behind(Load(file), Load(r.file))
            && (r.answer.Done? ==> GetAnswer(Load(r.file), p.packageName, p.version) == Done(Some(r.answer.value))))
  {
    hide EnsurePublisher, EnsurePackage, Execute, Get, Load, Consistent, Kept, HasId, AllPrintable, OrDash, Received, AllKept, AllSafe,
         VersionParams, GetAnswer, RowsOf, ReceivedRow, Behind, Publish, InsertPackageVersion, PublisherWrites, PackageWrites,
         WriteOf, PublishWrites, Append;
    PublishCases(file, p, opens);
    WritesCases(file, p, opens);
    NoWrites();
    EnsurePublisherKeeps(file, p.publisherName, p.publicKey, p.publisherId, opens);
    var a := PublisherWrites(file, p.publisherName, p.publicKey, p.publisherId, opens);
    assert a + [] == a;
    var pub := EnsurePublisher(file, p.publisherName, p.publicKey, p.publisherId, opens);
    if pub.answer.Done? {
      var b := PackageWrites(pub.file, p.packageName, p.description, p.repositoryUrl, p.packageId, opens);
      var pkg := EnsurePackage(pub.file, p.packageName, p.description, p.repositoryUrl, p.packageId, opens);
      var c := if pkg.answer.Raised? then []
               else WriteOf(pkg.file, VersionRow, VersionParams(p, pkg.answer.value, pub.answer.value), opens);
      AllSafeConcat(a, b + c);
      AllSafeConcat(b, c);
      AllKeptConcat(a, b + c);
      AllKeptConcat(b, c);
      if AllSafe(a) {
        BeforeVersionKeeps(file, p, opens);
        if AllSafe(b) && pkg.answer.Done? {
          VersionRowKeeps(pkg.file, p, pkg.answer.value, pub.answer.value, opens);
          var v := Execute(pkg.file, InsertPackageVersion(), VersionParams(p, pkg.answer.value, pub.answer.value), opens);
          if AllSafe(c) {
            BehindTransitive(Load(file), Load(pkg.file), Load(v.file));
            OkIsKept(Load(v.file));
            GetIs(v.file, p.packageName, p.version, opens);
          }
        }
      }
    }
  }

  lemma OkIsKept(tables: Tables)
    requires RegistryOk(tables)
    ensures Kept(tables)
  {
  }

  // ---------------------------------------------------------------- every run

  datatype Request =
    | PublishRequest(p: Publication, opens: bool)
    | GetRequest(name: string, version: string, opens: bool)
    | ListRequest(name: string, includeYanked: bool, opens: bool)

  function After(file: Option<string>, r: Request): Option<string> {
    match r
    case PublishRequest(p, opens) => Publish(file, p, opens).file
    case GetRequest(name, version, opens) => Get(file, name, version, opens).file
    case ListRequest(name, includeYanked, opens) => ListVersions(file, name, includeYanked, opens).file
  }

  function RunAll(file: Option<string>, rs: seq<Request>): Option<string> {
    if rs == [] then file else After(RunAll(file, rs[..|rs| - 1]), rs[|rs| - 1])
  }

  function WritesOf(file: Option<string>, r: Request): seq<Write> {
    if r.PublishRequest? then PublishWrites(file, r.p, r.opens) else []
  }

  /** All accepted inserts of a run, in order. */
  function RunWrites(file: Option<string>, rs: seq<Request>): seq<Write> {
    if rs == [] then []
    else
      var before := rs[..|rs| - 1];
      RunWrites(file, before) + WritesOf(RunAll(file, before), rs[|rs| - 1])
  }

  predicate AllWellTyped(rs: seq<Request>) {
    forall i :: 0 <= i < |rs| && rs[i].PublishRequest? ==> WellTyped(rs[i].p)
  }

  lemma OneRequest(file: Option<string>, r: Request)
    requires RegistryOk(Load(file)) && (r.PublishRequest? ==> WellTyped(r.p))
    ensures AllKept(WritesOf(file, r)) <==> AllSafe(WritesOf(file, r))
    ensures AllSafe(WritesOf(file, r)) ==> RegistryOk(Load(After(file, r))) && Behind(Load(file), Load(After(file, r)))
  {
    hide Publish, Get, ListVersions, Load, RegistryOk, AllKept, AllSafe, PublishWrites, Behind;
    NoWrites();
    BehindSelf(Load(file));
    match r {
      case PublishRequest(p, opens) => PublishKeeps(file, p, opens);
      case GetRequest(name, version, opens) => ReadsLeaveFile(file, name, version, false, opens);
      case ListRequest(name, includeYanked, opens) => ReadsLeaveFile(file, name, "", includeYanked, opens);
    }
  }

  /**
   Every run, exactly: each row it inserts is kept as it was sent if and only if each is
   safe. Then publisher and package names stay unique, every version row refers to a
   package and a publisher that exist, and rows are only ever appended, wherever
   publishes stop.
   */
  lemma {:induction false} EveryRunExactly(file: Option<string>, rs: seq<Request>)
    requires RegistryOk(Load(file)) && AllWellTyped(rs)
    ensures AllKept(RunWrites(file, rs)) <==> AllSafe(RunWrites(file, rs))
    ensures AllSafe(RunWrites(file, rs)) ==>
              RegistryOk(Load(RunAll(file, rs))) && Behind(Load(file), Load(RunAll(file, rs)))
  {
    hide After, Load, RegistryOk, WellTyped, AllKept, AllSafe, WritesOf, Behind;
    if rs == [] {
      NoWrites();
      BehindSelf(Load(file));
    } else {
      var n := |rs| - 1;
      EveryRunExactly(file, rs[..n]);
      var before := RunAll(file, rs[..n]);
      var a, b := RunWrites(file, rs[..n]), WritesOf(before, rs[n]);
      AllSafeConcat(a, b);
      AllKeptConcat(a, b);
      if AllSafe(a) {
        OneRequest(before, rs[n]);
        if AllSafe(b) {
          BehindTransitive(Load(file), Load(before), Load(RunAll(file, rs)));
        }
      }
    }
  }

  lemma BehindSelf(t: Tables)
    ensures Behind(t, t)
  {
  }

  /** Once a version is found, it is found with the same record after every further run of safe writes. */
  lemma FoundForever(file: Option<string>, rs: seq<Request>, name: string, version: string, opens: bool, opensLater: bool)
    requires RegistryOk(Load(file)) && AllWellTyped(rs) && AllSafe(RunWrites(file, rs))
    requires Get(file, name, version, opens).answer.Done? && Get(file, name, version, opens).answer.value.Some?
    ensures Get(RunAll(file, rs), name, version, opensLater).answer == Get(file, name, version, opens).answer
  {
    hide Get, RunAll, Load, Consistent, Kept, GetAnswer, AllSafe, AllKept;
    EveryRunExactly(file, rs);
    GetIs(file, name, version, opens);
    GetIs(RunAll(file, rs), name, version, opensLater);
    FoundStays(Load(file), Load(RunAll(file, rs)), name, version);
  }

  /** Publishing a version again, if it succeeds, returns the record of the first time. */
  lemma RepeatedPublishReadsFirst(file: Option<string>, p: Publication, opens: bool)
    requires RegistryOk(Load(file)) && WellTyped(p) && AllSafe(PublishWrites(file, p, opens))
    requires Publish(file, p, opens).answer.Done?
    requires GetAnswer(Load(file), p.packageName, p.version).Done? && GetAnswer(Load(file), p.packageName, p.version).value.Some?
    ensures Publish(file, p, opens).answer.value == GetAnswer(Load(file), p.packageName, p.version).value.value
  {
    hide Publish, Load, Consistent, Kept, GetAnswer, AllSafe, AllKept, PublishWrites;
    PublishKeeps(file, p, opens);
    FoundStays(Load(file), Load(Publish(file, p, opens).file), p.packageName, p.version);
  }

  // ---------------------------------------------------------------- a check before the call

  /** A check on the arguments alone; the public key may hold quotes, as no plan reads it back. */
  predicate SafePublication(p: Publication) {
    && Safe(p.publisherName) && Barless(p.publicKey) && Safe(p.packageName) && Safe(p.version) && Safe(p.treeDigest)
    && Safe(p.coverage) && Safe(OrDash(p.proofDigest)) && Safe(OrDash(p.description)) && Safe(OrDash(p.repositoryUrl))
    && Safe(p.publisherId) && Safe(p.packageId) && Safe(p.versionId)
  }

  predicate Safe(s: string) {
    Barless(s) && Quoteless(s)
  }

  lemma StoredIdIsBarless(tables: Tables, t: string, id: string)
    requires Durable(tables) && HasId(RowsOf(tables, t), id)
    ensures Barless(id)
  {
    hide ReadAsRow;
    var rows := RowsOf(tables, t);
    var j :| 0 <= j < |rows| && "id" in rows[j] && rows[j]["id"] == id;
    assert DurableRow(rows[j]) && CleanCell("id", rows[j]["id"]);
  }

  lemma PublisherParamsAreSafe(p: Publication)
    requires SafePublication(p)
    ensures SafeFor(PublisherRow, PublisherParamsOf(p.publisherId, p.publisherName, p.publicKey))
    ensures SafeFor(PackageRow, PackageParamsOf(p.packageId, p.packageName, p.description, p.repositoryUrl))
  {
    hide Barless, Quoteless, OrDash;
    assert "public_key" !in PUBLISHER_VIEW;
  }

  lemma VersionParamsAreSafe(p: Publication, pkg: string, pub: string)
    requires SafePublication(p) && Barless(pkg) && Barless(pub)
    ensures SafeFor(VersionRow, VersionParams(p, pkg, pub))
  {
    hide Barless, Quoteless, OrDash;
    assert "package_id" !in VERSION_VIEW && "publisher_id" !in VERSION_VIEW;
  }

  lemma WriteIsSafe(file: Option<string>, k: Kind, params: map<string, string>, opens: bool)
    requires SafeFor(k, params)
    ensures AllSafe(WriteOf(file, k, params, opens))
  {
    hide Execute, SafeFor;
  }

  /** Safe arguments make safe writes, in whatever state the publish finds the store. */
  lemma SafePublicationSuffices(file: Option<string>, p: Publication, opens: bool)
    requires RegistryOk(Load(file)) && WellTyped(p) && SafePublication(p)
    ensures AllSafe(PublishWrites(file, p, opens))
  {
    hide EnsurePublisher, EnsurePackage, Execute, Load, Consistent, HasId, AllPrintable, OrDash, AllKept, AllSafe, Durable, PlainView,
         VersionParams, RowsOf, Behind, WriteOf, PublishWrites, SafeFor, Barless, Quoteless, SafePublication;
    WritesCases(file, p, opens);
    NoWrites();
    PublisherParamsAreSafe(p);
    var e := Execute(file, PublisherByName(), map["name" := p.publisherName], opens);
    WriteIsSafe(e.file, PublisherRow, PublisherParamsOf(p.publisherId, p.publisherName, p.publicKey), opens);
    var a := PublisherWrites(file, p.publisherName, p.publicKey, p.publisherId, opens);
    assert a + [] == a;
    var pub := EnsurePublisher(file, p.publisherName, p.publicKey, p.publisherId, opens);
    if pub.answer.Done? {
      var g := Execute(pub.file, PackageByName(), map["name" := p.packageName], opens);
      WriteIsSafe(g.file, PackageRow, PackageParamsOf(p.packageId, p.packageName, p.description, p.repositoryUrl), opens);
      BeforeVersionKeeps(file, p, opens);
      var b := PackageWrites(pub.file, p.packageName, p.description, p.repositoryUrl, p.packageId, opens);
      var pkg := EnsurePackage(pub.file, p.packageName, p.description, p.repositoryUrl, p.packageId, opens);
      AllSafeConcat(b, []);
      AllSafeConcat(a, b + []);
      if pkg.answer.Done? {
        var t := Load(pkg.file);
        StoredIdIsBarless(t, "packages", pkg.answer.value);
        StoredIdIsBarless(t, "publishers", pub.answer.value);
        VersionParamsAreSafe(p, pkg.answer.value, pub.answer.value);
        WriteIsSafe(pkg.file, VersionRow, VersionParams(p, pkg.answer.value, pub.answer.value), opens);
        var c := WriteOf(pkg.file, VersionRow, VersionParams(p, pkg.answer.value, pub.answer.value), opens);
        AllSafeConcat(b, c);
        AllSafeConcat(a, b + c);
      }
    }
  }

  predicate SafeRequests(rs: seq<Request>) {
    forall i :: 0 <= i < |rs| && rs[i].PublishRequest? ==> SafePublication(rs[i].p)
  }

  /** So a run whose publications all pass the check is a run of safe writes. */
  lemma {:induction false} SafeRequestsSuffice(file: Option<string>, rs: seq<Request>)
    requires RegistryOk(Load(file)) && AllWellTyped(rs) && SafeRequests(rs)
    ensures AllSafe(RunWrites(file, rs)) && RegistryOk(Load(RunAll(file, rs)))
  {
    hide After, Load, RegistryOk, WellTyped, AllKept, AllSafe, PublishWrites, SafePublication, Behind;
    NoWrites();
    if rs != [] {
      var n := |rs| - 1;
      SafeRequestsSuffice(file, rs[..n]);
      var before := RunAll(file, rs[..n]);
      if rs[n].PublishRequest? {
        SafePublicationSuffices(before, rs[n].p, rs[n].opens);
      }
      AllSafeConcat(RunWrites(file, rs[..n]), WritesOf(before, rs[n]));
      EveryRunExactly(file, rs);
    }
  }

  // ---------------------------------------------------------------- the first publish

  /** The record of a stored version row. */
  function RecordOf(p: Publication, packageId: string): VersionRecord {
    VersionRecord(p.packageName, p.version, Received(p.treeDigest), Some(Received(OrDash(p.proofDigest))),
                  Received(p.coverage), "", None, false, packageId, Received(p.versionId))
  }

  /** What the reading plan keeps of a version row, and what it never shows. */
  lemma ViewCells(row: Row)
    requires row.Keys == set c | c in VERSION_COLUMNS
    ensures var kept := ProjectRow(row, Some(VERSION_VIEW));
            && KeptCell(row, kept, "id") && KeptCell(row, kept, "version") && KeptCell(row, kept, "tree_digest")
            && KeptCell(row, kept, "proof_digest") && KeptCell(row, kept, "coverage_pct")
            && "publisher_id" !in kept && "published_at" !in kept && "yanked" !in kept
  {
    hide ProjectRow, Lower;
    VersionCell(row, "id");
    VersionCell(row, "version");
    VersionCell(row, "tree_digest");
    VersionCell(row, "proof_digest");
    VersionCell(row, "coverage_pct");
    VersionCell(row, "publisher_id");
    VersionCell(row, "published_at");
    VersionCell(row, "yanked");
  }

  predicate KeptCell(row: Row, kept: Row, k: string) {
    k in kept && k in row && kept[k] == row[k]
  }

  lemma VersionCell(row: Row, k: string)
    requires row.Keys == set c | c in VERSION_COLUMNS
    requires k in VERSION_COLUMNS || k in VERSION_VIEW
    ensures var kept := ProjectRow(row, Some(VERSION_VIEW));
            if k in VERSION_COLUMNS && k in VERSION_VIEW then KeptCell(row, kept, k) else k !in kept
  {
    hide ProjectRow, CleanDistinct;
    ViewsAreClean();
    ProjectedColumn(row, VERSION_COLUMNS, VERSION_VIEW, k);
  }

  lemma ProjectedColumn(row: Row, columns: seq<string>, view: seq<string>, k: string)
    requires row.Keys == (set c | c in columns) && CleanDistinct(columns) && CleanDistinct(view)
    requires k in columns || k in view
    ensures var kept := ProjectRow(row, Some(view));
            if k in columns && k in view then KeptCell(row, kept, k) else k !in kept
  {
    hide CleanName, ProjectRow;
    if k in columns {
      var i :| 0 <= i < |columns| && columns[i] == k;
      CleanNameFacts(k);
    } else {
      var i :| 0 <= i < |view| && view[i] == k;
      CleanNameFacts(k);
    }
    ProjectedCell(row, view, k);
    assert k in row.Keys <==> k in columns;
  }

  lemma {:induction false} ReceivedNonEmpty(s: string)
    requires s != ""
    ensures Received(s) != ""
  {
    hide Unicode;
  }

  lemma DashIsNonEmpty(v: Option<string>)
    ensures OrDash(v) != ""
  {
  }

  lemma RecordOfRow(p: Publication, pkg: string, pub: string, row: Row)
    requires row == ReceivedRow(VERSION_COLUMNS, VersionParams(p, pkg, pub))
    ensures Cell(ProjectRow(row, Some(VERSION_VIEW)), "version", "None") == Received(p.version)
    ensures Received(p.version) == p.version && FloatText(Received(p.coverage)) ==>
              RowToRecord(p.packageName, ProjectRow(row, Some(VERSION_VIEW))["package_id" := pkg]) == Done(RecordOf(p, pkg))
  {
    hide Received, ProjectRow, ReceivedRow, ParamsFor, OrDash, FloatText;
    var params := VersionParams(p, pkg, pub);
    VersionParamsFor(p, pkg, pub);
    ReceivedCell(VERSION_COLUMNS, params, "id");
    ReceivedCell(VERSION_COLUMNS, params, "version");
    ReceivedCell(VERSION_COLUMNS, params, "tree_digest");
    ReceivedCell(VERSION_COLUMNS, params, "proof_digest");
    ReceivedCell(VERSION_COLUMNS, params, "coverage_pct");
    ViewCells(row);
    DashIsNonEmpty(p.proofDigest);
    ReceivedNonEmpty(OrDash(p.proofDigest));
  }

  /** No version row of a table refers to an id that is not there, so none is filtered for it. */
  lemma {:induction false} UnknownIdHasNoRows(vers: seq<Row>, pkgs: seq<Row>, id: string)
    requires Refers(vers, "package_id", pkgs) && !HasId(pkgs, id)
    ensures FilterProject(vers, Equals("package_id", id), Some(VERSION_VIEW)) == []
    decreases |vers|
  {
    hide ProjectRow, HasId;
    if vers != [] {
      var n := |vers| - 1;
      assert Refers(vers[..n], "package_id", pkgs);
      UnknownIdHasNoRows(vers[..n], pkgs, id);
      assert HasId(pkgs, vers[n]["package_id"]);
    }
  }

  lemma {:induction false} FirstVersionSnoc(rows: seq<Row>, row: Row, version: string)
    requires FirstVersion(rows, version).None?
    ensures FirstVersion(rows + [row], version) == if Cell(row, "version", "None") == version then Some(row) else None
  {
    if rows == [] {
      assert rows + [row] == [row] && [row][1..] == [];
    } else {
      assert (rows + [row])[0] == rows[0] && (rows + [row])[1..] == rows[1..] + [row];
      FirstVersionSnoc(rows[1..], row, version);
    }
  }

  /** The package id that a publish works with, and that the versions filtered for it do not hold the version yet. */
  lemma PackageIdOfPublish(file: Option<string>, p: Publication, opens: bool)
    requires RegistryOk(Load(file)) && AllPrintable(p.packageId)
    requires AllSafe(PackageWrites(file, p.packageName, p.description, p.repositoryUrl, p.packageId, opens))
    requires GetAnswer(Load(file), p.packageName, p.version) == Done(None)
    requires !HasId(RowsOf(Load(file), "packages"), p.packageId)
    requires EnsurePackage(file, p.packageName, p.description, p.repositoryUrl, p.packageId, opens).answer.Done?
    ensures
      var r := EnsurePackage(file, p.packageName, p.description, p.repositoryUrl, p.packageId, opens);
      var a, b := Load(file), Load(r.file);
      var hits := FilterProject(RowsOf(b, "packages"), Equals("name", Received(p.packageName)), Some(PACKAGE_VIEW));
      && hits != [] && "id" in hits[0] && hits[0]["id"] == r.answer.value
      && FirstVersion(FilterProject(RowsOf(a, "package_versions"), Equals("package_id", Received(r.answer.value)), Some(VERSION_VIEW)),
                      p.version).None?
  {
    hide Execute, Load, Kept, Received, SelectSql, Named, AllPrintable, FilterProject, OrDash, HasId, AllSafe, WriteOf, PackageParamsOf,
         FirstVersion, Find, RowToRecord, ReadPlan, InsertPackage, RowsOf, Consistent, PackageByName, VersionsForPackage,
         EnsurePackage;
    var a := Load(file);
    OkIsKept(a);
    LookUpPackage(file, p.packageName, opens);
    EnsurePackageCases(file, p.packageName, p.description, p.repositoryUrl, p.packageId, opens);
    if FilterProject(RowsOf(a, "packages"), Equals("name", Received(p.packageName)), Some(PACKAGE_VIEW)) == [] {
      NewPackageIsFirst(file, p, opens);
    }
  }

  lemma EnsurePackageCases(file: Option<string>, name: string, d: Option<string>, u: Option<string>, id: string, opens: bool)
    ensures
      var e := Execute(file, PackageByName(), map["name" := name], opens);
      var i := Execute(e.file, InsertPackage(), PackageParamsOf(id, name, d, u), opens);
      EnsurePackage(file, name, d, u, id, opens) ==
        if e.answer.Raised? then Reply(e.file, Raised(e.answer.why))
        else if e.answer.value != [] then
          Reply(e.file, if "id" in e.answer.value[0] then Done(e.answer.value[0]["id"]) else Raised(MissingColumn))
        else Reply(i.file, if i.answer.Raised? then Raised(i.answer.why) else Done(id))
  {
    hide Execute, InsertPackage, PackageByName, OrDash;
  }

  lemma NewPackageIsFirst(file: Option<string>, p: Publication, opens: bool)
    requires RegistryOk(Load(file)) && AllPrintable(p.packageId)
    requires AllSafe(WriteOf(file, PackageRow, PackageParamsOf(p.packageId, p.packageName, p.description, p.repositoryUrl), opens))
    requires FilterProject(RowsOf(Load(file), "packages"), Equals("name", Received(p.packageName)), Some(PACKAGE_VIEW)) == []
    requires !HasId(RowsOf(Load(file), "packages"), p.packageId)
    ensures
      var i := Execute(file, InsertPackage(), PackageParamsOf(p.packageId, p.packageName, p.description, p.repositoryUrl), opens);
      var hits := FilterProject(RowsOf(Load(i.file), "packages"), Equals("name", Received(p.packageName)), Some(PACKAGE_VIEW));
      i.answer.Done? ==> hits != [] && "id" in hits[0] && hits[0]["id"] == p.packageId
    ensures
      FirstVersion(FilterProject(RowsOf(Load(file), "package_versions"), Equals("package_id", Received(p.packageId)), Some(VERSION_VIEW)),
                   p.version).None?
  {
    hide Execute, Load, Kept, Received, InsertSqlOf, AllPrintable, FilterProject, OrDash, HasId, RowsOf, AllSafe, AllKept, WriteOf,
         FirstVersion, Shaped, Unique, PrintableIds, Append, ParamsFor, ReceivedRow, InsertPlan, Refers, Behind;
    var a := Load(file);
    var pkgs, vers := RowsOf(a, "packages"), RowsOf(a, "package_versions");
    PlansOfKinds();
    var params := PackageParamsOf(p.packageId, p.packageName, p.description, p.repositoryUrl);
    PackageParams(p.packageId, p.packageName, OrDash(p.description), OrDash(p.repositoryUrl));
    WriteOfExactly(file, PackageRow, params, opens);
    var row := ReceivedRow(PACKAGE_COLUMNS, params);
    ReceivedIsPrintable(p.packageId);
    ReceivedCell(PACKAGE_COLUMNS, params, "id");
    ReceivedCell(PACKAGE_COLUMNS, params, "name");
    AppendRows(a, "packages", row);
    FilterSnoc(pkgs, row, Equals("name", Received(p.packageName)), PACKAGE_VIEW);
    UnknownIdHasNoRows(vers, pkgs, p.packageId);
    NoFirstVersion(p.version);
  }

  lemma NoFirstVersion(version: string)
    ensures FirstVersion([], version).None?
  {
  }

  /** One more matching row with an id is one more hit. */
  lemma FilterSnoc(rows: seq<Row>, row: Row, f: Filter, view: seq<string>)
    requires Matches(row, f) && "id" in row && "id" in view
    ensures
      var kept := ProjectRow(row, Some(view));
      && FilterProject(rows + [row], f, Some(view)) == FilterProject(rows, f, Some(view)) + [kept]
      && "id" in kept && kept["id"] == row["id"]
  {
    IdIsLower();
    ProjectedCell(row, view, "id");
    assert (rows + [row])[..|rows|] == rows;
  }

  /**
   The first publish of a version wins: when the version was not there and the package
   id drawn is new, the record returned, and by `FoundForever` returned ever after,
   is made of this publish's own values as they arrive at the store.
   */
  lemma FirstPublishWins(file: Option<string>, p: Publication, opens: bool)
    requires RegistryOk(Load(file)) && WellTyped(p) && AllSafe(PublishWrites(file, p, opens))
    requires GetAnswer(Load(file), p.packageName, p.version) == Done(None)
    requires !HasId(RowsOf(Load(file), "packages"), p.packageId)
    requires Publish(file, p, opens).answer.Done?
    ensures
      var r := Publish(file, p, opens);
      r.answer.value == RecordOf(p, r.answer.value.packageId) && HasId(RowsOf(Load(r.file), "packages"), r.answer.value.packageId)
  {
    hide EnsurePublisher, EnsurePackage, Execute, Get, Load, Consistent, Kept, HasId, OrDash, Received, Named, GetAnswer, AllKept,
         VersionParams, FilterProject, FirstVersion, RowToRecord, ProjectRow, SelectSql, InsertSqlOf, RowsOf, AllPrintable, RecordOf,
         ReceivedRow, AllSafe, PublishWrites, PublisherWrites, PackageWrites, WriteOf, Append, Behind, Publish, InsertPackageVersion,
         FloatText;
    PublishCases(file, p, opens);
    WritesCases(file, p, opens);
    var pub := EnsurePublisher(file, p.publisherName, p.publicKey, p.publisherId, opens);
    var pkg := EnsurePackage(pub.file, p.packageName, p.description, p.repositoryUrl, p.packageId, opens);
    var id := pkg.answer.value;
    var params := VersionParams(p, id, pub.answer.value);
    var a := PublisherWrites(file, p.publisherName, p.publicKey, p.publisherId, opens);
    var b := PackageWrites(pub.file, p.packageName, p.description, p.repositoryUrl, p.packageId, opens);
    AllSafeConcat(a, b + WriteOf(pkg.file, VersionRow, params, opens));
    AllSafeConcat(b, WriteOf(pkg.file, VersionRow, params, opens));
    BeforeVersionKeeps(file, p, opens);
    EnsurePublisherKeeps(file, p.publisherName, p.publicKey, p.publisherId, opens);
    GetAnswerReadsTwoTables(Load(file), Load(pub.file), p.packageName, p.version);
    PackageIdOfPublish(pub.file, p, opens);
    EnsurePackageKeeps(pub.file, p.packageName, p.description, p.repositoryUrl, p.packageId, opens);
    VersionRowKeeps(pkg.file, p, id, pub.answer.value, opens);
    var v := Execute(pkg.file, InsertPackageVersion(), params, opens);
    OkIsKept(Load(v.file));
    GetIs(v.file, p.packageName, p.version, opens);
    ReceivedIsPrintable(id);
    ReceivedIsPrintable(p.coverage);
    ReadBackIsNew(Load(pkg.file), Load(v.file), p, id, pub.answer.value, ReceivedRow(VERSION_COLUMNS, params));
  }

  lemma GetAnswerReadsTwoTables(a: Tables, b: Tables, name: string, version: string)
    requires RowsOf(a, "packages") == RowsOf(b, "packages") && RowsOf(a, "package_versions") == RowsOf(b, "package_versions")
    ensures GetAnswer(a, name, version) == GetAnswer(b, name, version)
  {
    hide FilterProject, RowToRecord, FirstVersion, Find, SelectSql, RowsOf;
  }

  lemma ReadBackIsNew(a: Tables, b: Tables, p: Publication, id: string, pub: string, row: Row)
    requires b == Append(a, "package_versions", row) && Received(id) == id && FloatText(Received(p.coverage))
    requires row == ReceivedRow(VERSION_COLUMNS, VersionParams(p, id, pub))
    requires HasId(RowsOf(a, "packages"), id)
    requires
      var hits := FilterProject(RowsOf(a, "packages"), Equals("name", Received(p.packageName)), Some(PACKAGE_VIEW));
      hits != [] && "id" in hits[0] && hits[0]["id"] == id
    requires FirstVersion(FilterProject(RowsOf(a, "package_versions"), Equals("package_id", id), Some(VERSION_VIEW)), p.version).None?
    requires GetAnswer(b, p.packageName, p.version).Done? && GetAnswer(b, p.packageName, p.version).value.Some?
    ensures GetAnswer(b, p.packageName, p.version).value.value == RecordOf(p, id)
    ensures RecordOf(p, id).packageId == id && HasId(RowsOf(b, "packages"), id)
  {
    hide FilterProject, FirstVersion, RowToRecord, ProjectRow, SelectSql, Find, RowsOf, HasId, Received, ReceivedRow, Append, FloatText,
         PackageByName, VersionsForPackage, ParamsFor;
    var params := VersionParams(p, id, pub);
    VersionParamsFor(p, id, pub);
    ReceivedCell(VERSION_COLUMNS, params, "id");
    ReceivedCell(VERSION_COLUMNS, params, "package_id");
    AppendRows(a, "package_versions", row);
    var f := Equals("package_id", id);
    var vers := RowsOf(a, "package_versions");
    FilterSnoc(vers, row, f, VERSION_VIEW);
    var kept := ProjectRow(row, Some(VERSION_VIEW));
    FirstVersionSnoc(FilterProject(vers, f, Some(VERSION_VIEW)), kept, p.version);
    RecordOfRow(p, id, pub, row);
  }

  // ---------------------------------------------------------------- when readers are refused

  /** The columns of a version row that make up a record. */
  lemma ShownVersionIsRecord(row: Row, name: string, id: string)
    requires row.Keys == (set c | c in VERSION_COLUMNS) && FloatText(Cell(row, "coverage_pct", "0"))
    ensures RowToRecord(name, ProjectRow(row, Some(VERSION_VIEW))["package_id" := id]).Done?
  {
    hide ProjectRow, FloatText;
    ViewCells(row);
  }

  /**
   Over a store that meets the invariant a read raises if and only if the verbatim check
   refuses the name, or the stored id of the package it finds: no row lacks a column or
   has a coverage that is no number.
   */
  lemma ReadsRaiseOnlyWhenRefused(tables: Tables, name: string, version: string)
    requires RegistryOk(tables)
    ensures
      var hits := FilterProject(RowsOf(tables, "packages"), Equals("name", Received(name)), Some(PACKAGE_VIEW));
      && (hits != [] ==> "id" in hits[0])
      && (GetAnswer(tables, name, version).Raised? <==>
            Find(PackageByName().sql, name).Some? || (hits != [] && Find(VersionsForPackage().sql, hits[0]["id"]).Some?))
  {
    hide FilterProject, FirstVersion, Find, ProjectRow, RowToRecord, RowsOf, Kept, Received, FloatText, PackageByName,
         VersionsForPackage, Unique, Refers, PrintableIds, Named;
    var pkgs, vers := RowsOf(tables, "packages"), RowsOf(tables, "package_versions");
    FilterByName(pkgs, PACKAGE_COLUMNS, PACKAGE_VIEW, Received(name));
    var hits := FilterProject(pkgs, Equals("name", Received(name)), Some(PACKAGE_VIEW));
    if hits != [] {
      var id := hits[0]["id"];
      var f := Equals("package_id", Received(id));
      var rows := FilterProject(vers, f, Some(VERSION_VIEW));
      if FirstVersion(rows, version).Some? {
        FirstVersionIsARow(rows, version);
        var k :| 0 <= k < |rows| && rows[k] == FirstVersion(rows, version).value;
        FilteredFrom(vers, f, Some(VERSION_VIEW), k);
        var i :| 0 <= i < |vers| && ProjectRow(vers[i], Some(VERSION_VIEW)) == rows[k];
        ShownVersionIsRecord(vers[i], name, id);
      }
    }
  }

  // ---------------------------------------------------------------- what readers do not get

  /** The reading plan does not select the publisher, so no record names one, whatever the rows hold. */
  lemma PublisherIsNeverReported(tables: Tables, name: string, version: string)
    requires GetAnswer(tables, name, version).Done? && GetAnswer(tables, name, version).value.Some?
    ensures GetAnswer(tables, name, version).value.value.publisherId == ""
  {
    hide FilterProject, FirstVersion, Find, SelectSql, ProjectRow;
    var pkgs := FilterProject(RowsOf(tables, "packages"), Equals("name", Received(name)), Some(PACKAGE_VIEW));
    var id := pkgs[0]["id"];
    var f := Equals("package_id", Received(id));
    var rows := FilterProject(RowsOf(tables, "package_versions"), f, Some(VERSION_VIEW));
    FirstVersionIsARow(rows, version);
    var k :| 0 <= k < |rows| && rows[k] == FirstVersion(rows, version).value;
    FilteredFrom(RowsOf(tables, "package_versions"), f, Some(VERSION_VIEW), k);
    var i :| 0 <= i < |RowsOf(tables, "package_versions")|
          && ProjectRow(RowsOf(tables, "package_versions")[i], Some(VERSION_VIEW)) == rows[k];
    PublisherIsLower();
    ProjectedCell(RowsOf(tables, "package_versions")[i], VERSION_VIEW, "publisher_id");
  }

  lemma PublisherIsLower()
    ensures Lower("publisher_id") == "publisher_id" && "publisher_id" !in VERSION_VIEW
  {
  }

  lemma {:induction false} FirstVersionIsARow(rows: seq<Row>, version: string)
    requires FirstVersion(rows, version).Some?
    ensures exists k :: 0 <= k < |rows| && rows[k] == FirstVersion(rows, version).value
  {
    if Cell(rows[0], "version", "None") == version {
      assert rows[0] == FirstVersion(rows, version).value;
    } else {
      FirstVersionIsARow(rows[1..], version);
      var k :| 0 <= k < |rows[1..]| && rows[1..][k] == FirstVersion(rows[1..], version).value;
      assert rows[k + 1] == FirstVersion(rows, version).value;
    }
  }

  // ---------------------------------------------------------------- where runs start

  /** The store that `migrate` leaves behind satisfies the invariant. */
  lemma MigratedStoreIsOk()
    ensures Load(Some(Save(Bootstrap()))) == Bootstrap() && RegistryOk(Bootstrap())
  {
    hide Durable, Save, Replay;
    BootstrapIsDurable();
    SnapshotRoundTrip(Bootstrap());
    var tables := Bootstrap();
    assert RowsOf(tables, "publishers") == [] && RowsOf(tables, "packages") == [] && RowsOf(tables, "package_versions") == [];
  }
}
