/**
 Where the registry's promises end: a name with a bar, a publisher with quotes in its
 name and a digest with a quote, followed through the store to what readers get.
 */
module RegistryLimits {
  import opened Text
  import opened Catalog
  import opened Liq
  import opened Flatten
  import opened Lowering
  import opened Compiler
  import opened Native
  import opened Pipeline
  import opened StdMap
  import opened Snapshot
  import opened NativeEngine
  import opened Transport
  import opened Bridge
  import opened Registry
  import opened RegistryStore
  import opened RegistryRuns
  import opened PyFloat

  // ---------------------------------------------------------------- values that no plan refuses

  /** Characters that occur in no plan's text. */
  predicate Odd(c: char) {
    c == '-' || c == '.' || c == '|' || c == '"'
  }

  predicate Unseen(v: string) {
    exists i :: 0 <= i < |v| && Odd(v[i])
  }

  lemma CleanNameIsNotOdd(s: string, c: char)
    requires CleanName(s) && Odd(c)
    ensures c !in s
  {
    assert forall i :: 0 <= i < |s| ==> IsNameChar(s[i]);
  }

  lemma ColumnsAreNotOdd(columns: seq<string>, c: char)
    requires CleanDistinct(columns) && Odd(c)
    ensures c !in Join(columns, ", ")
  {
    hide CleanName;
    forall i | 0 <= i < |columns|
      ensures c !in columns[i]
    {
      CleanNameIsNotOdd(columns[i], c);
    }
    JoinAvoids(columns, ", ", c);
  }

  lemma SlotsAreNotOdd(columns: seq<string>, c: char)
    requires Odd(c)
    ensures c !in Join(ValueTexts(ColumnBindings(columns)), ", ")
  {
    var bs := ColumnBindings(columns);
    forall i | 0 <= i < |bs|
      ensures c !in ValueTexts(bs)[i]
    {
    }
    JoinAvoids(ValueTexts(bs), ", ", c);
  }

  lemma ReadingTextIsNotOdd(k: Kind, c: char)
    requires Odd(c)
    ensures c !in ReadingPlan(k).sql
  {
    hide Join, CleanDistinct, CleanName;
    KindIsClean(k);
    ColumnsAreNotOdd(ViewOf(k), c);
    CleanNameIsNotOdd(TableOf(k), c);
    CleanNameIsNotOdd(KeyOf(k), c);
    LimitOne();
  }

  lemma InsertingTextIsNotOdd(k: Kind, c: char)
    requires Odd(c)
    ensures c !in InsertingPlan(k).sql
  {
    hide Join, CleanDistinct, CleanName, ValueTexts, ColumnBindings;
    KindIsClean(k);
    ColumnsAreNotOdd(ColumnsOf(k), c);
    SlotsAreNotOdd(ColumnsOf(k), c);
    CleanNameIsNotOdd(TableOf(k), c);
  }

  lemma UnseenIsAsked(k: Kind, v: string)
    requires Unseen(v)
    ensures Find(ReadingPlan(k).sql, v).None?
  {
    hide ReadingPlan;
    var i :| 0 <= i < |v| && Odd(v[i]);
    ReadingTextIsNotOdd(k, v[i]);
    FindAbsent(ReadingPlan(k).sql, v, i);
  }

  predicate AllUnseen(params: map<string, string>) {
    forall c :: c in params ==> Unseen(params[c])
  }

  lemma UnseenIsBound(k: Kind, params: map<string, string>)
    requires ParamsFor(ColumnsOf(k), params) && AllUnseen(params)
    ensures BoundParams(InsertingPlan(k), params).Done?
  {
    hide InsertSqlOf, Find, ColumnsOf;
    var plan := InsertingPlan(k);
    assert Keys(plan.schema) == ColumnsOf(k);
    forall c | c in params
      ensures Find(plan.sql, params[c]).None?
    {
      var v := params[c];
      assert Unseen(v);
      var i :| 0 <= i < |v| && Odd(v[i]);
      InsertingTextIsNotOdd(k, v[i]);
      FindAbsent(plan.sql, v, i);
    }
  }

  /** An insert of unseen values into durable tables is accepted and stores the reloaded row. */
  lemma AcceptedInsert(file: Option<string>, k: Kind, params: map<string, string>)
    requires Durable(Load(file)) && ParamsFor(ColumnsOf(k), params) && AllUnseen(params)
    ensures
      var c, row := Execute(file, InsertingPlan(k), params, true), ReceivedRow(ColumnsOf(k), params);
      && c.answer == Done([])
      && Load(c.file) == Append(Load(file), TableOf(k), Reload(row))
      && (BarlessParams(params) ==> Load(c.file) == Append(Load(file), TableOf(k), row) && Durable(Load(c.file)))
  {
    hide *;
    KindIsClean(k);
    UnseenIsBound(k, params);
    InsertingPlanIs(k);
    ExecuteInsert(file, TableOf(k), ColumnsOf(k), params, true);
    if BarlessParams(params) {
      ReceivedRowIsDurable(ColumnsOf(k), params);
      CleanNameIsPlain(TableOf(k));
      CleanNameNonEmpty(TableOf(k));
      AppendDurableExactly(Load(file), TableOf(k), ReceivedRow(ColumnsOf(k), params));
    }
  }

  // ---------------------------------------------------------------- values that a plan takes and the store keeps

  predicate Passes(v: string) {
    Unseen(v) && Barless(v) && AllPrintable(v)
  }

  lemma PassesWith(v: string, i: nat)
    requires i < |v| && Odd(v[i]) && Barless(v) && AllPrintable(v)
    ensures Passes(v)
  {
  }

  /** The shape of `str(uuid.uuid4())`. */
  predicate Uuid(s: string) {
    |s| == 36 && forall i :: 0 <= i < 36 ==>
      if i == 8 || i == 13 || i == 18 || i == 23 then s[i] == '-' else IsDigit(s[i]) || 'a' <= s[i] <= 'f'
  }

  lemma UuidPasses(s: string)
    requires Uuid(s)
    ensures Passes(s) && Quoteless(s) && PlainJson(s) && s != "EVIL-1"
  {
    PassesWith(s, 8);
  }

  // ---------------------------------------------------------------- a name with a bar

  lemma LoadedCellsAreClean(file: Option<string>)
    ensures NamesAndCellsClean(Load(file))
  {
    hide ReadLines, SplitLines;
    if file.Some? {
      ReadTablesAreReadable(Snapshot.Reader(map[], ""), SplitLines(file.value));
    }
  }

  lemma {:induction false} NothingMatches(rows: seq<Row>, f: Filter, columns: Projection)
    requires forall i :: 0 <= i < |rows| ==> !Matches(rows[i], f)
    ensures FilterProject(rows, f, columns) == []
  {
    if rows != [] {
      NothingMatches(rows[..|rows| - 1], f, columns);
    }
  }

  /** Whatever the file holds, a value with a bar is looked up in vain. */
  lemma BarIsNeverFound(file: Option<string>, k: Kind, value: string, opens: bool)
    requires !Barless(value)
    ensures FilterProject(RowsOf(Load(file), TableOf(k)), Equals(KeyOf(k), Received(value)), Some(ViewOf(k))) == []
    ensures Execute(file, ReadingPlan(k), map[KeyOf(k) := value], opens) == Called(file, Done([]))
  {
    hide *;
    KindIsClean(k);
    var f, rows := Equals(KeyOf(k), Received(value)), RowsOf(Load(file), TableOf(k));
    forall i | 0 <= i < |rows|
      ensures !Matches(rows[i], f)
    {
      LoadedCellsAreClean(file);
      CleanRowHasNoBar(Load(file), TableOf(k), i, f);
      ArrivesExactly(value);
    }
    NothingMatches(rows, f, Some(ViewOf(k)));
    BarIsUnseen(value);
    UnseenIsAsked(k, value);
    ReadingPlanIs(k);
    NoRowsArePlain();
    ExecuteRead(file, TableOf(k), ViewOf(k), KeyOf(k), if k.VersionRow? then None else Some(1), value, opens);
  }

  lemma NoRowsArePlain()
    ensures AllPlain([])
  {
  }

  lemma BarIsUnseen(v: string)
    requires !Barless(v)
    ensures Unseen(v)
  {
    var i :| 0 <= i < |v| && v[i] == '|';
    assert Odd(v[i]);
  }

  lemma CleanRowHasNoBar(tables: Tables, t: string, i: nat, f: Filter)
    requires NamesAndCellsClean(tables) && i < |RowsOf(tables, t)| && f.Equals?
    ensures Matches(RowsOf(tables, t)[i], f) ==> Barless(f.value)
  {
    hide CleanCell;
    var row := RowsOf(tables, t)[i];
    assert t in tables && row == tables[t][i] && CleanCells(row);
    if f.column in row {
      CleanCellIsBarless(f.column, row[f.column]);
    }
  }

  lemma CleanCellIsBarless(k: string, v: string)
    requires CleanCell(k, v)
    ensures Barless(v)
  {
  }

  /**
   Get-or-create, exactly: after it succeeds with a name, that name is found if and only
   if it holds no bar. Without one the next lookup has the stored row; with one every
   further call stores another row.
   */
  lemma StoredNameIsFoundExactly(file: Option<string>, name: string, key: string, id: string, opens: bool)
    requires Kept(Load(file)) && Barless(id) && Barless(key)
    requires EnsurePublisher(file, name, key, id, opens).answer.Done?
    ensures
      var after := Load(EnsurePublisher(file, name, key, id, opens).file);
      FilterProject(RowsOf(after, "publishers"), Equals("name", Received(name)), Some(PUBLISHER_VIEW)) != [] <==> Barless(name)
  {
    hide *;
    var r := EnsurePublisher(file, name, key, id, opens);
    if Barless(name) {
      KeptView(Load(file), PublisherRow);
      EnsurePublisherCases(file, name, key, id, opens);
      KindsAre();
      LookUp(file, PublisherRow, name, opens);
      var params := PublisherParamsOf(id, name, key);
      PublisherParamsFit(id, name, key);
      KindIsClean(PublisherRow);
      InsertingPlanIs(PublisherRow);
      ExecuteInsert(file, "publishers", PUBLISHER_COLUMNS, params, opens);
      ReceivedName(id, name, key);
      AppendRows(Load(file), "publishers", ReceivedRow(PUBLISHER_COLUMNS, params));
      LastIsFound(RowsOf(Load(file), "publishers"), ReceivedRow(PUBLISHER_COLUMNS, params), Received(name));
    } else {
      KindsAre();
      BarIsNeverFound(r.file, PublisherRow, name, opens);
    }
  }

  lemma KindsAre()
    ensures KeyOf(PublisherRow) == "name" && TableOf(PublisherRow) == "publishers" && ViewOf(PublisherRow) == PUBLISHER_VIEW
    ensures KeyOf(PackageRow) == "name" && TableOf(PackageRow) == "packages" && ViewOf(PackageRow) == PACKAGE_VIEW
    ensures KeyOf(VersionRow) == "package_id" && TableOf(VersionRow) == "package_versions" && ViewOf(VersionRow) == VERSION_VIEW
  {
  }

  lemma ReceivedName(id: string, name: string, key: string)
    ensures var row := ReceivedRow(PUBLISHER_COLUMNS, PublisherParamsOf(id, name, key));
            "id" in row && "name" in row && row["name"] == Received(name)
  {
    hide Received;
  }

  lemma LastIsFound(rows: seq<Row>, row: Row, name: string)
    requires "id" in row && "name" in row && row["name"] == name
    ensures FilterProject(rows + [row], Equals("name", name), Some(PUBLISHER_VIEW)) != []
  {
    hide FilterProject, ProjectRow;
    FilterSnoc(rows, row, Equals("name", name), PUBLISHER_VIEW);
  }

  // ---------------------------------------------------------------- two publishers of one name

  function PublisherOf(id: string, name: string, key: string): Row {
    map["id" := id, "name" := name, "public_key" := key]
  }

  lemma PublisherKeys()
    ensures SortedKeys({"id", "name", "public_key"}) == ["id", "name", "public_key"]
  {
    hide LexLeq, SortedKeys;
    var s := {"id", "name", "public_key"};
    NamesInOrder();
    LeastIsUnique(s, "id", Least(s));
    var t := {"name", "public_key"};
    assert s - {"id"} == t;
    LeastIsUnique(t, "name", Least(t));
    assert t - {"name"} == {"public_key"};
    LeastIsUnique({"public_key"}, "public_key", Least({"public_key"}));
    ThreeSorted(s, t);
  }

  lemma NamesInOrder()
    ensures LexLeq("id", "id") && LexLeq("id", "name") && LexLeq("id", "public_key")
    ensures LexLeq("name", "name") && LexLeq("name", "public_key") && LexLeq("public_key", "public_key")
  {
    LexTotal("id", "id");
    LexTotal("name", "name");
    LexTotal("public_key", "public_key");
  }

  lemma ThreeSorted(s: set<string>, t: set<string>)
    requires s != {} && Least(s) == "id" && s - {"id"} == t && t != {} && Least(t) == "name" && t - {"name"} == {"public_key"}
    requires Least({"public_key"}) == "public_key"
    ensures SortedKeys(s) == ["id", "name", "public_key"]
  {
    hide LexLeq;
    assert {"public_key"} - {"public_key"} == {};
    assert SortedKeys({"public_key"}) == ["public_key"] + SortedKeys({});
    assert SortedKeys(t) == ["name"] + SortedKeys({"public_key"});
  }

  lemma PublisherLine(id: string, name: string, key: string)
    ensures RowText(PublisherOf(id, name, key)) ==
            Join([FieldText("id", id), FieldText("name", name), FieldText("public_key", key)], "|")
  {
    hide SortedKeys, Join, FieldText;
    var row := PublisherOf(id, name, key);
    assert row.Keys == {"id", "name", "public_key"};
    PublisherKeys();
    var keys := ["id", "name", "public_key"];
    var fields := [FieldText("id", id), FieldText("name", name), FieldText("public_key", key)];
    assert forall i :: 0 <= i < |keys| ==> keys[i] in row;
    assert FieldTexts(row, keys) == fields;
  }

  lemma FourFieldsAdded(id: string, key: string)
    ensures AddFields(map[], [FieldText("id", id), FieldText("name", "x"), FieldText("name", "y"), FieldText("public_key", key)]) ==
            PublisherOf(id, "y", key)
  {
    hide AddField, FieldText;
    AddCleanField(map[], "id", id);
    AddCleanField(map["id" := id], "name", "x");
    AddCleanField(map["id" := id, "name" := "x"], "name", "y");
    AddCleanField(map["id" := id, "name" := "y"], "public_key", key);
    AddFour([FieldText("id", id), FieldText("name", "x"), FieldText("name", "y"), FieldText("public_key", key)]);
    assert map["id" := id, "name" := "x"]["name" := "y"] == map["id" := id, "name" := "y"];
  }

  /** A publisher called `x|name=y` is one called `y` after the next load. */
  lemma BarredPublisherReloads(id: string, key: string)
    requires Barless(id) && Barless(key)
    ensures Reload(PublisherOf(id, "x|name=y", key)) == PublisherOf(id, "y", key)
  {
    hide *;
    var a, c := FieldText("id", id), FieldText("public_key", key);
    PublisherLine(id, "x|name=y", key);
    BarMakesTwo(a, c);
    NoBarsInFields(id, key);
    SplitBarsOfJoin([a, FieldText("name", "x"), FieldText("name", "y"), c]);
    FourFieldsAdded(id, key);
    ReloadIs(PublisherOf(id, "x|name=y", key));
  }

  lemma ReloadIs(row: Row)
    ensures Reload(row) == AddFields(map[], SplitBars(RowText(row), ""))
  {
    hide AddFields, SplitBars, RowText;
  }

  lemma AddFour(fields: seq<string>)
    requires |fields| == 4
    ensures AddFields(map[], fields) == AddField(AddField(AddField(AddField(map[], fields[0]), fields[1]), fields[2]), fields[3])
  {
    hide AddField;
    var r1 := AddField(map[], fields[0]);
    var r2 := AddField(r1, fields[1]);
    var r3 := AddField(r2, fields[2]);
    assert AddFields(AddField(r3, fields[3]), fields[4..]) == AddField(r3, fields[3]);
    assert fields[3..][1..] == fields[4..] && fields[2..][1..] == fields[3..] && fields[1..][1..] == fields[2..];
    assert AddFields(r3, fields[3..]) == AddField(r3, fields[3]);
    assert AddFields(r2, fields[2..]) == AddFields(r3, fields[3..]);
  }

  lemma NoBarsInFields(id: string, key: string)
    requires Barless(id) && Barless(key)
    ensures NoBars([FieldText("id", id), FieldText("name", "x"), FieldText("name", "y"), FieldText("public_key", key)])
  {
  }

  lemma BarMakesTwo(a: string, c: string)
    ensures Join([a, FieldText("name", "x|name=y"), c], "|") ==
            Join([a, FieldText("name", "x"), FieldText("name", "y"), c], "|")
  {
    var x, y := FieldText("name", "x"), FieldText("name", "y");
    assert FieldText("name", "x|name=y") == x + "|" + y;
    var end := Join([c], "|");
    assert [a, x + "|" + y, c][1..] == [x + "|" + y, c] && [x + "|" + y, c][1..] == [c];
    assert [a, x, y, c][1..] == [x, y, c] && [x, y, c][1..] == [y, c] && [y, c][1..] == [c];
    assert Join([x + "|" + y, c], "|") == x + "|" + y + "|" + end;
    assert Join([x, y, c], "|") == x + "|" + (y + "|" + end);
    Assoc3(x + "|", y, "|" + end);
    Assoc3(x + "|" + y, "|", end);
    Assoc3(y, "|", end);
  }

  lemma EnsurePublisherCases(file: Option<string>, name: string, key: string, id: string, opens: bool)
    ensures
      var e := Execute(file, ReadingPlan(PublisherRow), map["name" := name], opens);
      var i := Execute(e.file, InsertingPlan(PublisherRow), PublisherParamsOf(id, name, key), opens);
      EnsurePublisher(file, name, key, id, opens) ==
        if e.answer.Raised? then Reply(e.file, Raised(e.answer.why))
        else if e.answer.value != [] then
          Reply(e.file, if "id" in e.answer.value[0] then Done(e.answer.value[0]["id"]) else Raised(MissingColumn))
        else Reply(i.file, if i.answer.Raised? then Raised(i.answer.why) else Done(id))
  {
    hide Execute, InsertingPlan, ReadingPlan, ReadPlan, InsertPlan;
    PlansOfKinds();
  }

  /** A lookup of a value that no plan refuses. */
  lemma Sought(file: Option<string>, k: Kind, value: string, opens: bool)
    requires Unseen(value) && AllPrintable(value)
    ensures
      var hits := FilterProject(RowsOf(Load(file), TableOf(k)), Equals(KeyOf(k), value), Some(ViewOf(k)));
      Execute(file, ReadingPlan(k), map[KeyOf(k) := value], opens) == Called(file, Answer(hits)) &&
      (AllPlain(hits) ==> Answer(hits) == Done(hits))
  {
    hide Execute, Load, FilterProject, Received, Find, RowsOf, AllPrintable, Unseen, Answer, ReadPlan, CleanDistinct, CleanName, AllPlain;
    ReceivedIsPrintable(value);
    KindIsClean(k);
    ExecuteRead(file, TableOf(k), ViewOf(k), KeyOf(k), if k.VersionRow? then None else Some(1), value, opens);
    UnseenIsAsked(k, value);
  }

  /** Creating a publisher over a store where its name is not found. */
  lemma NewPublisherStored(file: Option<string>, name: string, key: string, id: string)
    requires Durable(Load(file)) && AllPrintable(name) && AllPrintable(key) && AllPrintable(id)
    requires Unseen(name) && Unseen(key) && Unseen(id)
    requires FilterProject(RowsOf(Load(file), "publishers"), Equals("name", name), Some(PUBLISHER_VIEW)) == []
    ensures
      var r := EnsurePublisher(file, name, key, id, true);
      && r.answer == Done(id)
      && Load(r.file) == Append(Load(file), "publishers", Reload(PublisherOf(id, name, key)))
      && (Barless(name) && Barless(key) && Barless(id) ==>
            Load(r.file) == Append(Load(file), "publishers", PublisherOf(id, name, key)) && Durable(Load(r.file)))
  {
    hide *;
    ReceivedIsPrintable(name);
    ReceivedIsPrintable(key);
    ReceivedIsPrintable(id);
    EnsurePublisherCases(file, name, key, id, true);
    Sought(file, PublisherRow, name, true);
    KindsAre();
    NoRowsArePlain();
    var params := PublisherParamsOf(id, name, key);
    PublisherParamsFit(id, name, key);
    AcceptedInsert(file, PublisherRow, params);
    ReceivedPublisher(id, name, key);
  }

  lemma PublisherParamsFit(id: string, name: string, key: string)
    ensures
      var params := PublisherParamsOf(id, name, key);
      && ParamsFor(ColumnsOf(PublisherRow), params)
      && (Unseen(name) && Unseen(key) && Unseen(id) ==> AllUnseen(params))
      && (Barless(name) && Barless(key) && Barless(id) ==> BarlessParams(params))
    ensures ColumnsOf(PublisherRow) == PUBLISHER_COLUMNS && TableOf(PublisherRow) == "publishers"
  {
    hide Unseen, Barless;
    PublisherParams(id, name, key);
  }

  lemma ReceivedPublisher(id: string, name: string, key: string)
    requires Received(id) == id && Received(name) == name && Received(key) == key
    ensures ReceivedRow(PUBLISHER_COLUMNS, PublisherParamsOf(id, name, key)) == PublisherOf(id, name, key)
  {
    hide Received;
  }

  lemma LiteralsArePrintable()
    ensures AllPrintable("x|name=y") && AllPrintable("y") && AllPrintable("key-1") && AllPrintable("key-2")
    ensures !Barless("x|name=y") && Barless("y") && Barless("key-1") && Barless("key-2")
    ensures Unseen("x|name=y") && Unseen("key-1") && Unseen("key-2")
  {
    assert "x|name=y"[1] == '|' && "key-1"[3] == '-' && "key-2"[3] == '-';
  }

  lemma PassesMeans(v: string)
    requires Passes(v)
    ensures Unseen(v) && Barless(v) && AllPrintable(v)
  {
  }

  lemma BarIsSought(file: Option<string>, name: string)
    requires !Barless(name) && AllPrintable(name)
    ensures FilterProject(RowsOf(Load(file), "publishers"), Equals("name", name), Some(PUBLISHER_VIEW)) == []
  {
    hide Load, FilterProject, Received, Execute, AllPrintable, Barless;
    BarIsNeverFound(file, PublisherRow, name, true);
    ReceivedIsPrintable(name);
  }

  lemma PublisherIsDurable(id: string, name: string, key: string)
    requires AllPrintable(id) && AllPrintable(name) && AllPrintable(key) && Barless(id) && Barless(name) && Barless(key)
    ensures DurableRow(PublisherOf(id, name, key))
  {
    hide Received, AllPrintable, DurableRow, ReceivedRow, Barless;
    ReceivedIsPrintable(name);
    ReceivedIsPrintable(key);
    ReceivedIsPrintable(id);
    ReceivedPublisher(id, name, key);
    PublisherParams(id, name, key);
    ViewsAreClean();
    ReceivedRowIsDurable(PUBLISHER_COLUMNS, PublisherParamsOf(id, name, key));
  }

  lemma DurableWithPublisher(tables: Tables, row: Row)
    requires Durable(tables) && DurableRow(row)
    ensures Durable(Append(tables, "publishers", row))
  {
    hide Durable, DurableRow, Append;
    AppendDurableExactly(tables, "publishers", row);
  }

  lemma NothingYet()
    ensures RowsOf(Bootstrap(), "publishers") == [] && RowsOf(Bootstrap(), "packages") == [] && RowsOf(Bootstrap(), "package_versions") == []
    ensures forall f: Filter, view: seq<string> :: FilterProject([], f, Some(view)) == []
  {
  }

  lemma TwoAreNotUnique(name: string, id: string, key: string, id2: string, key2: string)
    ensures var a, b := PublisherOf(id, name, key), PublisherOf(id2, name, key2);
            [] + [a] + [b] == [a, b] && !Unique([a, b], "name")
  {
    var a, b := PublisherOf(id, name, key), PublisherOf(id2, name, key2);
    assert [a, b][0] == a && [a, b][1] == b;
  }

  /**
   Publishing twice as `x|name=y`, whatever ids are drawn, stores two publishers, both
   called `y` from the next load on: get-or-create is not idempotent and names are not
   unique.
   */
  lemma TwoPublishersOfOneName(id1: string, id2: string)
    requires Uuid(id1) && Uuid(id2)
    ensures
      var name := "x|name=y";
      var f := EnsurePublisher(Some(Save(Bootstrap())), name, "key-1", id1, true).file;
      var g := EnsurePublisher(f, name, "key-2", id2, true).file;
      && RowsOf(Load(g), "publishers") == [PublisherOf(id1, "y", "key-1"), PublisherOf(id2, "y", "key-2")]
      && !Unique(RowsOf(Load(g), "publishers"), "name")
  {
    hide *;
    var name := "x|name=y";
    var start := Some(Save(Bootstrap()));
    var f := EnsurePublisher(start, name, "key-1", id1, true).file;
    UuidPasses(id1);
    UuidPasses(id2);
    PassesMeans(id1);
    PassesMeans(id2);
    MigratedStoreIsOk();
    OkIsKept(Bootstrap());
    KeptView(Bootstrap(), PublisherRow);
    LiteralsArePrintable();
    BarIsSought(start, name);
    NewPublisherStored(start, name, "key-1", id1);
    BarredPublisherReloads(id1, "key-1");
    PublisherIsDurable(id1, "y", "key-1");
    DurableWithPublisher(Bootstrap(), PublisherOf(id1, "y", "key-1"));
    BarIsSought(f, name);
    NewPublisherStored(f, name, "key-2", id2);
    BarredPublisherReloads(id2, "key-2");
    AppendRows(Bootstrap(), "publishers", PublisherOf(id1, "y", "key-1"));
    AppendRows(Load(f), "publishers", PublisherOf(id2, "y", "key-2"));
    NothingYet();
    TwoAreNotUnique("y", id1, "key-1", id2, "key-2");
  }

  // ---------------------------------------------------------------- a publish, step by step

  function PackageOf(p: Publication): Row {
    ReceivedRow(PACKAGE_COLUMNS, PackageParamsOf(p.packageId, p.packageName, p.description, p.repositoryUrl))
  }

  function VersionOf(p: Publication, pkg: string, pub: string): Row {
    ReceivedRow(VERSION_COLUMNS, VersionParams(p, pkg, pub))
  }

  /** A publication that no plan refuses and whose values hold no bars. */
  predicate Passing(p: Publication) {
    && Passes(p.publisherName) && Passes(p.publicKey) && Passes(p.packageName) && Passes(p.version) && Passes(p.treeDigest)
    && Passes(p.coverage) && Passes(OrDash(p.proofDigest)) && Passes(OrDash(p.description)) && Passes(OrDash(p.repositoryUrl))
    && Passes(p.publisherId) && Passes(p.packageId) && Passes(p.versionId)
  }

  lemma PackageParamsPass(p: Publication)
    requires Passing(p)
    ensures
      var params := PackageParamsOf(p.packageId, p.packageName, p.description, p.repositoryUrl);
      ParamsFor(ColumnsOf(PackageRow), params) && AllUnseen(params) && BarlessParams(params)
    ensures ColumnsOf(PackageRow) == PACKAGE_COLUMNS && TableOf(PackageRow) == "packages"
  {
    hide Unseen, Barless, AllPrintable, OrDash;
    PackageParams(p.packageId, p.packageName, OrDash(p.description), OrDash(p.repositoryUrl));
  }

  lemma VersionParamsPass(p: Publication, pkg: string, pub: string)
    requires Passing(p) && Passes(pkg) && Passes(pub)
    ensures
      var params := VersionParams(p, pkg, pub);
      ParamsFor(ColumnsOf(VersionRow), params) && AllUnseen(params) && BarlessParams(params)
    ensures ColumnsOf(VersionRow) == VERSION_COLUMNS && TableOf(VersionRow) == "package_versions"
  {
    hide Unseen, Barless, AllPrintable, OrDash;
    VersionParamsFor(p, pkg, pub);
  }

  function EnsurePackageOf(file: Option<string>, p: Publication): Reply<string> {
    EnsurePackage(file, p.packageName, p.description, p.repositoryUrl, p.packageId, true)
  }

  function EnsurePublisherOf(file: Option<string>, p: Publication): Reply<string> {
    EnsurePublisher(file, p.publisherName, p.publicKey, p.publisherId, true)
  }

  lemma NewPackageStored(file: Option<string>, p: Publication)
    requires Durable(Load(file)) && Passing(p)
    requires FilterProject(RowsOf(Load(file), "packages"), Equals("name", p.packageName), Some(PACKAGE_VIEW)) == []
    ensures
      var r := EnsurePackageOf(file, p);
      r.answer == Done(p.packageId) && Load(r.file) == Append(Load(file), "packages", PackageOf(p)) && Durable(Load(r.file))
  {
    hide *;
    PassingParts(p);
    EnsurePackageOfIs(file, p);
    EnsurePackageCases(file, p.packageName, p.description, p.repositoryUrl, p.packageId, true);
    Sought(file, PackageRow, p.packageName, true);
    KindsAre();
    NoRowsArePlain();
    PackageParamsPass(p);
    PlansOfKinds();
    AcceptedInsert(file, PackageRow, PackageParamsOf(p.packageId, p.packageName, p.description, p.repositoryUrl));
    RowsOfPublication(p, "", "");
  }

  lemma PassingParts(p: Publication)
    requires Passing(p)
    ensures Unseen(p.packageName) && AllPrintable(p.packageName) && Unseen(p.publisherName) && AllPrintable(p.publisherName)
    ensures Unseen(p.publicKey) && AllPrintable(p.publicKey) && Unseen(p.publisherId) && AllPrintable(p.publisherId)
    ensures Barless(p.publisherName) && Barless(p.publicKey) && Barless(p.publisherId)
    ensures Passes(p.publisherId) && Passes(p.packageId)
  {
    hide Unseen, AllPrintable, OrDash, Barless;
  }

  lemma EnsurePackageOfIs(file: Option<string>, p: Publication)
    ensures EnsurePackageOf(file, p) == EnsurePackage(file, p.packageName, p.description, p.repositoryUrl, p.packageId, true)
    ensures EnsurePublisherOf(file, p) == EnsurePublisher(file, p.publisherName, p.publicKey, p.publisherId, true)
  {
    hide EnsurePackage, EnsurePublisher;
  }

  lemma RowsOfPublication(p: Publication, pkg: string, pub: string)
    ensures PackageOf(p) == ReceivedRow(PACKAGE_COLUMNS, PackageParamsOf(p.packageId, p.packageName, p.description, p.repositoryUrl))
    ensures VersionOf(p, pkg, pub) == ReceivedRow(VERSION_COLUMNS, VersionParams(p, pkg, pub))
  {
    hide ReceivedRow;
  }

  lemma FoundPackage(file: Option<string>, p: Publication, hit: Row)
    requires Passing(p) && PlainRow(hit) && "id" in hit
    requires FilterProject(RowsOf(Load(file), "packages"), Equals("name", p.packageName), Some(PACKAGE_VIEW)) == [hit]
    ensures EnsurePackageOf(file, p) == Reply(file, Done(hit["id"]))
  {
    hide *;
    PassingParts(p);
    EnsurePackageOfIs(file, p);
    EnsurePackageCases(file, p.packageName, p.description, p.repositoryUrl, p.packageId, true);
    Sought(file, PackageRow, p.packageName, true);
    KindsAre();
    PlansOfKinds();
    OnePlainRow(hit);
  }

  lemma OnePlainRow(row: Row)
    requires PlainRow(row)
    ensures AllPlain([row])
  {
    hide PlainRow;
  }

  /** Where the version row ends up when both ids are at hand. */
  lemma VersionStored(file: Option<string>, p: Publication, f: Option<string>, pub: string, g: Option<string>, pkg: string)
    requires Passing(p) && Passes(pkg) && Passes(pub)
    requires EnsurePublisherOf(file, p) == Reply(f, Done(pub)) && EnsurePackageOf(f, p) == Reply(g, Done(pkg)) && Durable(Load(g))
    ensures
      var after := Publish(file, p, true).file;
      Load(after) == Append(Load(g), "package_versions", VersionOf(p, pkg, pub)) && Durable(Load(after))
  {
    hide *;
    EnsurePackageOfIs(file, p);
    EnsurePackageOfIs(f, p);
    PublishCases(file, p, true);
    VersionParamsPass(p, pkg, pub);
    PlansOfKinds();
    AcceptedInsert(g, VersionRow, VersionParams(p, pkg, pub));
    RowsOfPublication(p, pkg, pub);
    var v := Execute(g, InsertPackageVersion(), VersionParams(p, pkg, pub), true);
    ReadsLeaveFile(v.file, p.packageName, p.version, true, true);
  }

  /** The first publish of a publisher and a package. */
  lemma FirstPublishStored(file: Option<string>, p: Publication)
    requires Durable(Load(file)) && Passing(p)
    requires FilterProject(RowsOf(Load(file), "publishers"), Equals("name", p.publisherName), Some(PUBLISHER_VIEW)) == []
    requires FilterProject(RowsOf(Load(file), "packages"), Equals("name", p.packageName), Some(PACKAGE_VIEW)) == []
    ensures
      var after, before := Load(Publish(file, p, true).file), Load(file);
      && Durable(after)
      && RowsOf(after, "publishers") == RowsOf(before, "publishers") + [PublisherOf(p.publisherId, p.publisherName, p.publicKey)]
      && RowsOf(after, "packages") == RowsOf(before, "packages") + [PackageOf(p)]
      && RowsOf(after, "package_versions") == RowsOf(before, "package_versions") + [VersionOf(p, p.packageId, p.publisherId)]
  {
    hide *;
    PassingParts(p);
    EnsurePackageOfIs(file, p);
    NewPublisherStored(file, p.publisherName, p.publicKey, p.publisherId);
    var f := EnsurePublisherOf(file, p).file;
    AppendRows(Load(file), "publishers", PublisherOf(p.publisherId, p.publisherName, p.publicKey));
    NewPackageStored(f, p);
    var g := EnsurePackageOf(f, p).file;
    AppendRows(Load(f), "packages", PackageOf(p));
    VersionStored(file, p, f, p.publisherId, g, p.packageId);
    AppendRows(Load(g), "package_versions", VersionOf(p, p.packageId, p.publisherId));
  }

  // ---------------------------------------------------------------- a publisher with quotes in its name

  /** The name `a","id":"EVIL-1`. */
  const QUOTED := "a\",\"id\":\"EVIL-1"

  lemma HitOfOne(row: Row, f: Filter, view: seq<string>)
    requires Matches(row, f) && "id" in row && "id" in view
    ensures FilterProject([row], f, Some(view)) == [ProjectRow(row, Some(view))]
    ensures "id" in ProjectRow(row, Some(view)) && ProjectRow(row, Some(view))["id"] == row["id"]
  {
    hide ProjectRow, Matches;
    FilterSnoc([], row, f, view);
    assert [] + [row] == [row] && [] + [ProjectRow(row, Some(view))] == [ProjectRow(row, Some(view))];
    assert FilterProject([], f, Some(view)) == [];
  }

  lemma PublisherShown(id: string, name: string, key: string)
    ensures Matches(PublisherOf(id, name, key), Equals("name", name))
    ensures FilterProject([PublisherOf(id, name, key)], Equals("name", name), Some(PUBLISHER_VIEW)) == [map["id" := id, "name" := name]]
  {
    hide FilterProject, ProjectRow;
    var row := PublisherOf(id, name, key);
    HitOfOne(row, Equals("name", name), PUBLISHER_VIEW);
    ProjectedCell(row, PUBLISHER_VIEW, "id");
    ProjectedCell(row, PUBLISHER_VIEW, "name");
    ProjectedCell(row, PUBLISHER_VIEW, "public_key");
    var shown := ProjectRow(row, Some(PUBLISHER_VIEW));
    ShownIsPart(row, PUBLISHER_VIEW);
    assert "public_key" !in PUBLISHER_VIEW;
    assert shown == map["id" := id, "name" := name];
  }

  lemma ShownIsPart(row: Row, view: seq<string>)
    ensures ProjectRow(row, Some(view)).Keys <= row.Keys
  {
  }

  /** The row as it is printed, and the three members that are read. */
  lemma QuotedText(id: string)
    ensures
      var row: Row := map["id" := id, "name" := QUOTED];
      CellsOf(row) == [("id", id), ("name", QUOTED)]
    ensures CellsJson([("id", id), ("name", QUOTED)]) == CellsJson([("id", id), ("name", "a"), ("id", "EVIL-1")])
  {
    hide SortedKeys;
    var row: Row := map["id" := id, "name" := QUOTED];
    assert row.Keys == {"id", "name"};
    QuotedTail(id);
  }

  lemma QuotedTail(id: string)
    ensures CellsJson([("id", id), ("name", QUOTED)]) == CellsJson([("id", id), ("name", "a"), ("id", "EVIL-1")])
  {
    hide CellJson;
    var a, b, c := ("id", id), ("name", "a"), ("id", "EVIL-1");
    assert [a, ("name", QUOTED)][1..] == [("name", QUOTED)] && [a, b, c][1..] == [b, c] && [b, c][1..] == [c];
    OneTextTwoReadings();
    assert CellsJson([("name", QUOTED)]) == CellJson(("name", QUOTED)) + "}";
    assert CellsJson([b, c]) == CellJson(b) + ("," + (CellJson(c) + "}"));
    Assoc4(CellJson(b), ",", CellJson(c), "}");
  }

  lemma OneTextTwoReadings()
    ensures CellJson(("name", QUOTED)) == CellJson(("name", "a")) + "," + CellJson(("id", "EVIL-1"))
  {
    hide CellJson;
    QuotedCellText();
    PlainCellTexts();
  }

  lemma QuotedCellText()
    ensures CellJson(("name", QUOTED)) == "\"name\":\"a\",\"id\":\"EVIL-1\""
  {
    assert QUOTED + "\"" == "a\",\"id\":\"EVIL-1\"";
    assert "\":\"" + (QUOTED + "\"") == "\":\"a\",\"id\":\"EVIL-1\"";
  }

  lemma PlainCellTexts()
    ensures CellJson(("name", "a")) == "\"name\":\"a\"" && CellJson(("id", "EVIL-1")) == "\"id\":\"EVIL-1\""
  {
  }

  /** What the caller gets of a publisher of that name is another id and another name. */
  lemma QuotedAnswer(id: string)
    requires PlainJson(id)
    ensures Answer([map["id" := id, "name" := QUOTED]]) == Done([map["id" := "EVIL-1", "name" := "a"]])
  {
    hide ReadResult, CellsOf, CellsJson, Decimal;
    var row: Row := map["id" := id, "name" := QUOTED];
    var cells := [("id", id), ("name", "a"), ("id", "EVIL-1")];
    QuotedText(id);
    assert AllCells([row]) == [CellsOf(row)];
    assert RowsJson([CellsOf(row)]) == RowsJson([cells]);
    assert PlainRows([cells]);
    ReadPlainText([cells], 0);
    RowOfThree(id);
    assert RowsOfCells([cells]) == [map["id" := "EVIL-1", "name" := "a"]];
  }

  lemma RowOfThree(id: string)
    ensures RowOf([("id", id), ("name", "a"), ("id", "EVIL-1")]) == map["id" := "EVIL-1", "name" := "a"]
  {
    var a, b, c := ("id", id), ("name", "a"), ("id", "EVIL-1");
    assert [a, b, c][..2] == [a, b] && [a, b][..1] == [a] && [a][..0] == [];
    assert RowOf([a]) == map["id" := id];
    assert RowOf([a, b]) == map["id" := id, "name" := "a"];
    assert map["id" := id, "name" := "a"]["id" := "EVIL-1"] == map["id" := "EVIL-1", "name" := "a"];
  }

  /** Two publications of that publisher with the ids drawn for them. */
  function QuotedFirst(pub: string, pkg: string, ver: string): Publication {
    Publication(QUOTED, "key-1", "lib-1", "1.0.0", "d-1", "9.0", None, None, None, pub, pkg, ver)
  }

  function QuotedSecond(pub: string, pkg: string, ver: string): Publication {
    Publication(QUOTED, "key-1", "lib-2", "1.0.0", "d-1", "9.0", None, None, None, pub, pkg, ver)
  }

  /** The short values of the publications below. */
  lemma ShortValuesPass()
    ensures Passes("key-1") && Passes("lib-1") && Passes("lib-2") && Passes("1.0.0") && Passes("2.0.0")
    ensures Passes("d-1") && Passes("9.0") && Passes("-") && Passes("pub-1")
  {
    hide Passes;
    PassesWith("key-1", 3);
    PassesWith("lib-1", 3);
    PassesWith("lib-2", 3);
    PassesWith("pub-1", 3);
    PassesWith("1.0.0", 1);
    PassesWith("2.0.0", 1);
    PassesWith("d-1", 1);
    PassesWith("9.0", 1);
    PassesWith("-", 0);
  }

  lemma CoverageIsNumber()
    ensures FloatText("9.0")
  {
    hide FloatText;
    assert "9" + ("." + "0") == "9.0";
    DecimalFractionIsRead("9", "0");
  }

  lemma QuotedPasses(pub: string, pkg: string, ver: string)
    requires Passes(pub) && Passes(pkg) && Passes(ver)
    ensures Passing(QuotedFirst(pub, pkg, ver)) && Passing(QuotedSecond(pub, pkg, ver)) && Passes("EVIL-1")
  {
    hide Passes;
    ShortValuesPass();
    PassesWith("EVIL-1", 4);
    PassesWith(QUOTED, 1);
  }

  /** The first package does not answer to the second name. */
  lemma OtherPackage(p: Publication, name: string)
    requires Received(p.packageName) != name
    ensures FilterProject([PackageOf(p)], Equals("name", name), Some(PACKAGE_VIEW)) == []
  {
    hide Received;
    PackageParams(p.packageId, p.packageName, OrDash(p.description), OrDash(p.repositoryUrl));
    ReceivedCell(PACKAGE_COLUMNS, PackageParamsOf(p.packageId, p.packageName, p.description, p.repositoryUrl), "name");
    NothingMatches([PackageOf(p)], Equals("name", name), Some(PACKAGE_VIEW));
  }

  lemma QuotedFields(pub: string, pkg: string, ver: string)
    ensures
      var p := QuotedFirst(pub, pkg, ver);
      p.publisherName == QUOTED && p.publicKey == "key-1" && p.packageName == "lib-1" && p.publisherId == pub && p.packageId == pkg
    ensures
      var q := QuotedSecond(pub, pkg, ver);
      q.publisherName == QUOTED && q.packageName == "lib-2" && q.packageId == pkg
    ensures Received("lib-1") == "lib-1"
  {
    ReceivedIsPrintable("lib-1");
  }

  /**
   Publishing twice as `a","id":"EVIL-1`, whatever ids are drawn: the second lookup is
   answered with an id that no publisher has, and the second version row refers to nobody.
   */
  lemma ReferenceToNobody(pub1: string, pkg1: string, ver1: string, pub2: string, pkg2: string, ver2: string)
    requires Uuid(pub1) && Uuid(pkg1) && Uuid(ver1) && Uuid(pub2) && Uuid(pkg2) && Uuid(ver2)
    ensures
      var p, q := QuotedFirst(pub1, pkg1, ver1), QuotedSecond(pub2, pkg2, ver2);
      var f := Publish(Some(Save(Bootstrap())), p, true).file;
      var g := Publish(f, q, true).file;
      var pubs, vers := RowsOf(Load(g), "publishers"), RowsOf(Load(g), "package_versions");
      && EnsurePublisherOf(f, q) == Reply(f, Done("EVIL-1"))
      && pubs == [PublisherOf(pub1, QUOTED, "key-1")]
      && !Refers(vers, "publisher_id", pubs)
  {
    hide *;
    var start := Some(Save(Bootstrap()));
    var p, q := QuotedFirst(pub1, pkg1, ver1), QuotedSecond(pub2, pkg2, ver2);
    SixUuidsPass(pub1, pkg1, ver1, pub2, pkg2, ver2);
    MigratedStoreIsOk();
    OkIsKept(Bootstrap());
    KeptView(Bootstrap(), PublisherRow);
    NothingYet();
    QuotedPasses(pub1, pkg1, ver1);
    QuotedPasses(pub2, pkg2, ver2);
    QuotedFields(pub1, pkg1, ver1);
    QuotedFields(pub2, pkg2, ver2);
    PassingParts(p);
    PassingParts(q);
    FirstPublishStored(start, p);
    var f := Publish(start, p, true).file;
    var row := PublisherOf(pub1, QUOTED, "key-1");
    AddToNothing(row, PackageOf(p), VersionOf(p, pkg1, pub1));
    PublisherShown(pub1, QUOTED, "key-1");
    EnsurePackageOfIs(f, q);
    EnsurePublisherCases(f, QUOTED, q.publicKey, q.publisherId, true);
    Sought(f, PublisherRow, QUOTED, true);
    KindsAre();
    QuotedAnswer(pub1);
    OtherPackage(p, "lib-2");
    NewPackageStored(f, q);
    var g := EnsurePackageOf(f, q).file;
    AppendRows(Load(f), "packages", PackageOf(q));
    VersionStored(f, q, f, "EVIL-1", g, pkg2);
    AppendRows(Load(g), "package_versions", VersionOf(q, pkg2, "EVIL-1"));
    RefersToNobody(VersionOf(p, pkg1, pub1), q, pkg2, pub1);
  }

  lemma SixUuidsPass(a: string, b: string, c: string, d: string, e: string, f: string)
    requires Uuid(a) && Uuid(b) && Uuid(c) && Uuid(d) && Uuid(e) && Uuid(f)
    ensures Passes(a) && Passes(b) && Passes(c) && Passes(d) && Passes(e) && Passes(f)
    ensures Quoteless(a) && Quoteless(b) && Quoteless(c) && Quoteless(d) && Quoteless(e) && Quoteless(f)
    ensures PlainJson(a) && a != "EVIL-1"
  {
    hide Uuid, Passes, Quoteless, PlainJson;
    UuidPasses(a);
    UuidPasses(b);
    UuidPasses(c);
    UuidPasses(d);
    UuidPasses(e);
    UuidPasses(f);
  }

  lemma AddToNothing(a: Row, b: Row, c: Row)
    ensures [] + [a] == [a] && [] + [b] == [b] && [] + [c] == [c]
  {
  }

  lemma RefersToNobody(first: Row, p: Publication, pkg: string, id: string)
    requires id != "EVIL-1"
    ensures !Refers([first] + [VersionOf(p, pkg, "EVIL-1")], "publisher_id", [PublisherOf(id, QUOTED, "key-1")])
  {
    hide Received;
    var params, row := VersionParams(p, pkg, "EVIL-1"), VersionOf(p, pkg, "EVIL-1");
    VersionParamsFor(p, pkg, "EVIL-1");
    ReceivedCell(VERSION_COLUMNS, params, "publisher_id");
    ReceivedIsPrintable("EVIL-1");
    assert ([first] + [row])[1] == row;
    assert !HasId([PublisherOf(id, QUOTED, "key-1")], row["publisher_id"]);
  }

  // ---------------------------------------------------------------- a digest with a quote

  /** Two versions of one package, the second with the tree digest `a"b`. */
  function DigestPlain(pub: string, pkg: string, ver: string): Publication {
    Publication("pub-1", "key-1", "lib-1", "1.0.0", "d-1", "9.0", None, None, None, pub, pkg, ver)
  }

  function DigestQuoted(pub: string, pkg: string, ver: string): Publication {
    Publication("pub-1", "key-1", "lib-1", "2.0.0", "a\"b", "9.0", None, None, None, pub, pkg, ver)
  }

  lemma DigestsPass(pub: string, pkg: string, ver: string)
    requires Passes(pub) && Passes(pkg) && Passes(ver)
    ensures Passing(DigestPlain(pub, pkg, ver)) && Passing(DigestQuoted(pub, pkg, ver))
  {
    hide Passes;
    ShortValuesPass();
    PassesWith("a\"b", 1);
  }

  lemma DigestFields(pub: string, pkg: string, ver: string)
    ensures
      var p := DigestPlain(pub, pkg, ver);
      && p.publisherName == "pub-1" && p.publicKey == "key-1" && p.packageName == "lib-1" && p.version == "1.0.0"
      && p.publisherId == pub && p.packageId == pkg
    ensures var q := DigestQuoted(pub, pkg, ver); q.publisherName == "pub-1" && q.packageName == "lib-1"
  {
  }

  /** The short values hold no quote. */
  lemma ShortValuesAreQuoteless()
    ensures Quoteless("pub-1") && Quoteless("key-1") && Quoteless("lib-1") && Quoteless("1.0.0") && Quoteless("2.0.0")
    ensures Quoteless("d-1") && Quoteless("9.0") && Quoteless("-")
  {
  }

  lemma PackageShown(pub: string, pkg: string, ver: string)
    requires Passes(pkg) && Quoteless(pkg)
    ensures
      var hits := FilterProject([PackageOf(DigestPlain(pub, pkg, ver))], Equals("name", "lib-1"), Some(PACKAGE_VIEW));
      |hits| == 1 && PlainRow(hits[0]) && "id" in hits[0] && hits[0]["id"] == pkg
  {
    hide FilterProject, ProjectRow, Received, PlainRow, Quoteless, CleanDistinct, ReceivedRow, ParamsFor, Unseen, Barless, AllPrintable;
    var p := DigestPlain(pub, pkg, ver);
    var params := PackageParamsOf(p.packageId, p.packageName, p.description, p.repositoryUrl);
    var row := PackageOf(p);
    PackageParams(p.packageId, p.packageName, OrDash(p.description), OrDash(p.repositoryUrl));
    ReceivedCell(PACKAGE_COLUMNS, params, "name");
    ReceivedCell(PACKAGE_COLUMNS, params, "id");
    LibIsPrintable();
    ReceivedIsPrintable("lib-1");
    ReceivedIsPrintable(pkg);
    HitOfOne(row, Equals("name", "lib-1"), PACKAGE_VIEW);
    ViewsAreClean();
    ShortValuesAreQuoteless();
    ViewIsPlainExactly(PACKAGE_COLUMNS, PACKAGE_VIEW, params);
  }

  lemma LibIsPrintable()
    ensures AllPrintable("lib-1") && AllPrintable("1.0.0") && AllPrintable("9.0") && AllPrintable("a\"b")
  {
  }

  /** The version rows are read by their package id. */
  lemma VersionMatches(p: Publication, pkg: string, pub: string)
    requires AllPrintable(pkg)
    ensures Matches(VersionOf(p, pkg, pub), Equals("package_id", pkg))
    ensures "id" in VersionOf(p, pkg, pub)
  {
    hide Received;
    var params := VersionParams(p, pkg, pub);
    VersionParamsFor(p, pkg, pub);
    ReceivedCell(VERSION_COLUMNS, params, "package_id");
    ReceivedCell(VERSION_COLUMNS, params, "id");
    ReceivedIsPrintable(pkg);
  }

  function ShownVersion(p: Publication, pkg: string, pub: string): Row {
    ProjectRow(VersionOf(p, pkg, pub), Some(VERSION_VIEW))
  }

  lemma VersionsShown(p: Publication, q: Publication, pkg: string, pub: string)
    requires AllPrintable(pkg)
    ensures
      var f, a, b := Equals("package_id", pkg), VersionOf(p, pkg, pub), VersionOf(q, pkg, pub);
      && FilterProject([a], f, Some(VERSION_VIEW)) == [ShownVersion(p, pkg, pub)]
      && FilterProject([a] + [b], f, Some(VERSION_VIEW)) == [ShownVersion(p, pkg, pub), ShownVersion(q, pkg, pub)]
  {
    hide FilterProject, ProjectRow, VersionOf, AllPrintable;
    var f, a, b := Equals("package_id", pkg), VersionOf(p, pkg, pub), VersionOf(q, pkg, pub);
    VersionMatches(p, pkg, pub);
    VersionMatches(q, pkg, pub);
    HitOfOne(a, f, VERSION_VIEW);
    FilterSnoc([a], b, f, VERSION_VIEW);
  }

  lemma FirstVersionIsShown(pub: string, pkg: string, ver: string)
    requires Quoteless(ver)
    ensures PlainRow(ShownVersion(DigestPlain(pub, pkg, ver), pkg, pub))
  {
    hide ProjectRow, Received, PlainRow, Quoteless, CleanDistinct, ReceivedRow, ParamsFor;
    var p := DigestPlain(pub, pkg, ver);
    VersionParamsFor(p, pkg, pub);
    ViewsAreClean();
    ShortValuesAreQuoteless();
    assert "package_id" !in VERSION_VIEW && "publisher_id" !in VERSION_VIEW;
    ViewIsPlainExactly(VERSION_COLUMNS, VERSION_VIEW, VersionParams(p, pkg, pub));
  }

  predicate DigestBreaks(row: Row) {
    && "tree_digest" in row && row["tree_digest"] == "a\"b"
    && forall k :: k in row ==> PlainJson(k) && (k != "tree_digest" ==> PlainJson(row[k]))
  }

  lemma ShownValue(params: map<string, string>, k: string)
    requires ParamsFor(VERSION_COLUMNS, params)
    requires k in ProjectRow(ReceivedRow(VERSION_COLUMNS, params), Some(VERSION_VIEW))
    ensures k in params && ProjectRow(ReceivedRow(VERSION_COLUMNS, params), Some(VERSION_VIEW))[k] == Received(params[k])
    ensures PlainJson(k) && (PlainJson(Received(params[k])) <==> Quoteless(params[k]))
  {
    hide ProjectRow, Received, PlainJson, Quoteless, ReceivedRow, CleanName;
    var row := ReceivedRow(VERSION_COLUMNS, params);
    ViewsAreClean();
    ShownCell(row, VERSION_VIEW, k);
    ReceivedCell(VERSION_COLUMNS, params, "id");
    assert k in row.Keys && k in VERSION_COLUMNS;
    ReceivedCell(VERSION_COLUMNS, params, k);
    var i :| 0 <= i < |VERSION_COLUMNS| && VERSION_COLUMNS[i] == k;
    CleanNameIsPlain(k);
    ArrivesExactly(params[k]);
  }

  lemma OnlyTheDigest(q: Publication, pkg: string, pub: string, pub2: string, pkg2: string, k: string)
    requires q == DigestQuoted(pub2, pkg2, q.versionId) && Quoteless(q.versionId) && Quoteless(pkg) && Quoteless(pub)
    ensures var params := VersionParams(q, pkg, pub);
            k in params && k != "tree_digest" ==> Quoteless(params[k])
  {
    hide Quoteless;
    ShortValuesAreQuoteless();
  }

  lemma SecondVersionBreaks(q: Publication, pkg: string, pub: string, pub2: string, pkg2: string)
    requires q == DigestQuoted(pub2, pkg2, q.versionId) && Quoteless(q.versionId) && Quoteless(pkg) && Quoteless(pub)
    ensures DigestBreaks(ShownVersion(q, pkg, pub))
  {
    hide ProjectRow, Received, PlainJson, Quoteless, ReceivedRow, ParamsFor, VersionParams;
    var params := VersionParams(q, pkg, pub);
    VersionParamsFor(q, pkg, pub);
    LibIsPrintable();
    ShownDigest(q, pkg, pub);
    forall k | k in ShownVersion(q, pkg, pub)
      ensures PlainJson(k) && (k != "tree_digest" ==> PlainJson(ShownVersion(q, pkg, pub)[k]))
    {
      ShownValue(params, k);
      OnlyTheDigest(q, pkg, pub, pub2, pkg2, k);
    }
  }

  lemma ShownDigest(q: Publication, pkg: string, pub: string)
    requires AllPrintable(q.treeDigest)
    ensures "tree_digest" in ShownVersion(q, pkg, pub) && ShownVersion(q, pkg, pub)["tree_digest"] == q.treeDigest
  {
    hide ProjectRow, Received, ReceivedRow, ParamsFor;
    VersionParamsFor(q, pkg, pub);
    ReceivedCell(VERSION_COLUMNS, VersionParams(q, pkg, pub), "tree_digest");
    ViewCells(VersionOf(q, pkg, pub));
    ReceivedIsPrintable(q.treeDigest);
  }

  lemma ShownCell(row: Row, view: seq<string>, k: string)
    requires k in ProjectRow(row, Some(view))
    ensures k in row && ProjectRow(row, Some(view))[k] == row[k]
  {
  }

  lemma BrokenCells(good: Row, bad: Row) returns (i: nat)
    requires PlainRow(good) && DigestBreaks(bad)
    ensures BrokenAt([CellsOf(good), CellsOf(bad)], 1, i, "a", "b")
  {
    hide PlainJson, CellsOf, BreaksOff;
    var cells: Cells := CellsOf(bad);
    CellsOfAreDistinct(bad);
    i :| 0 <= i < |cells| && cells[i].0 == "tree_digest";
    forall j | 0 <= j < |cells|
      ensures PlainJson(cells[j].0) && (j < i ==> PlainJson(cells[j].1)) && (j == i ==> cells[j].1 == "a\"b")
    {
      assert CellOf(cells[j], bad);
    }
    QuoteBreaksOff();
    assert [CellsOf(good), CellsOf(bad)][..1] == [CellsOf(good)] && PlainCells(CellsOf(good));
  }

  /** A result that holds such a row cannot be decoded. */
  lemma BrokenRowsRaise(good: Row, bad: Row)
    requires PlainRow(good) && DigestBreaks(bad)
    ensures Answer([good, bad]) == Raised(EngineFailed)
  {
    hide *;
    var i := BrokenCells(good, bad);
    BrokenResultIsUnreadable([CellsOf(good), CellsOf(bad)], 1, i, "a", "b", 0);
    TwoRowsText(good, bad);
    AnswerCases([good, bad]);
  }

  lemma TwoRowsText(a: Row, b: Row)
    ensures ResultJson(ExecResult([a, b], 0)) == ResultText(RowsJson([CellsOf(a), CellsOf(b)]), 0)
  {
    hide RowsJson, CellsOf, Decimal;
    assert AllCells([a, b]) == [CellsOf(a), CellsOf(b)];
  }

  lemma QuoteBreaksOff()
    ensures BreaksOff("a\"b", "a", "b")
  {
  }

  /** What a read of the package comes to, with the rows its two plans filter. */
  lemma GetFrom(file: Option<string>, version: string, opens: bool, pkg: string, hit: Row, rows: seq<Row>)
    requires FilterProject(RowsOf(Load(file), "packages"), Equals("name", "lib-1"), Some(PACKAGE_VIEW)) == [hit]
    requires PlainRow(hit) && "id" in hit && hit["id"] == pkg && Passes(pkg)
    requires FilterProject(RowsOf(Load(file), "package_versions"), Equals("package_id", pkg), Some(VERSION_VIEW)) == rows
    ensures Answer(rows).Raised? ==> Get(file, "lib-1", version, opens).answer.Raised?
    ensures AllPlain(rows) && FirstVersion(rows, version).Some? ==>
              var rec := RowToRecord("lib-1", FirstVersion(rows, version).value["package_id" := pkg]);
              Get(file, "lib-1", version, opens).answer == if rec.Raised? then Raised(rec.why) else Done(Some(rec.value))
  {
    hide Execute, Load, FilterProject, Received, Find, RowsOf, Unseen, Answer, ReadPlan, CleanDistinct, CleanName, AllPlain, FirstVersion,
         RowToRecord, PackageByName, VersionsForPackage, ReadingPlan;
    ShortValuesPass();
    Sought(file, PackageRow, "lib-1", opens);
    KindsAre();
    PlansOfKinds();
    OnePlainRow(hit);
    Sought(file, VersionRow, pkg, opens);
  }

  lemma FirstRecord(pub: string, pkg: string, ver: string)
    ensures var p := DigestPlain(pub, pkg, ver);
            var rows := [ShownVersion(p, pkg, pub)];
            && FirstVersion(rows, "1.0.0") == Some(rows[0])
            && RowToRecord("lib-1", rows[0]["package_id" := pkg]) == Done(RecordOf(p, pkg))
  {
    hide ProjectRow, Received, ReceivedRow, RowToRecord, RecordOf, FloatText;
    var p := DigestPlain(pub, pkg, ver);
    LibIsPrintable();
    ReceivedIsPrintable("1.0.0");
    ReceivedIsPrintable("9.0");
    CoverageIsNumber();
    RecordOfRow(p, pkg, pub, VersionOf(p, pkg, pub));
  }

  /**
   A version is published and found; then another version of the package is published
   with the tree digest `a"b`. From then on every read of the package raises, for any
   version and whatever ids were drawn: the record that was found is lost to all readers.
   */
  lemma QuoteHidesThePackage(pub1: string, pkg1: string, ver1: string, pub2: string, pkg2: string, ver2: string,
                             version: string, opens: bool)
    requires Uuid(pub1) && Uuid(pkg1) && Uuid(ver1) && Uuid(pub2) && Uuid(pkg2) && Uuid(ver2)
    ensures
      var p, q := DigestPlain(pub1, pkg1, ver1), DigestQuoted(pub2, pkg2, ver2);
      var f := Publish(Some(Save(Bootstrap())), p, true).file;
      var g := Publish(f, q, true).file;
      && Get(f, "lib-1", "1.0.0", opens).answer == Done(Some(RecordOf(p, pkg1)))
      && Get(g, "lib-1", version, opens).answer.Raised?
  {
    hide *;
    var start := Some(Save(Bootstrap()));
    var p, q := DigestPlain(pub1, pkg1, ver1), DigestQuoted(pub2, pkg2, ver2);
    SixUuidsPass(pub1, pkg1, ver1, pub2, pkg2, ver2);
    PassesMeans(pkg1);
    MigratedStoreIsOk();
    OkIsKept(Bootstrap());
    KeptView(Bootstrap(), PublisherRow);
    NothingYet();
    DigestsPass(pub1, pkg1, ver1);
    DigestsPass(pub2, pkg2, ver2);
    DigestFields(pub1, pkg1, ver1);
    DigestFields(pub2, pkg2, ver2);
    PassingParts(p);
    PassingParts(q);
    FirstPublishStored(start, p);
    var f := Publish(start, p, true).file;
    AddToNothing(PublisherOf(pub1, "pub-1", "key-1"), PackageOf(p), VersionOf(p, pkg1, pub1));
    PublisherShown(pub1, "pub-1", "key-1");
    Sought(f, PublisherRow, "pub-1", true);
    KindsAre();
    ShownPublisherIsPlain(pub1);
    EnsurePackageOfIs(f, q);
    EnsurePublisherCases(f, "pub-1", q.publicKey, q.publisherId, true);
    PackageShown(pub1, pkg1, ver1);
    var hit := FilterProject([PackageOf(p)], Equals("name", "lib-1"), Some(PACKAGE_VIEW))[0];
    FoundPackage(f, q, hit);
    VersionStored(f, q, f, pub1, f, pkg1);
    AppendRows(Load(f), "package_versions", VersionOf(q, pkg1, pub1));
    VersionsShown(p, q, pkg1, pub1);
    FirstVersionIsShown(pub1, pkg1, ver1);
    OnePlainRow(ShownVersion(p, pkg1, pub1));
    FirstRecord(pub1, pkg1, ver1);
    GetFrom(f, "1.0.0", opens, pkg1, hit, [ShownVersion(p, pkg1, pub1)]);
    VersionIdOf(pub2, pkg2, ver2);
    SecondVersionBreaks(q, pkg1, pub1, pub2, pkg2);
    BrokenRowsRaise(ShownVersion(p, pkg1, pub1), ShownVersion(q, pkg1, pub1));
    GetFrom(Publish(f, q, true).file, version, opens, pkg1, hit, [ShownVersion(p, pkg1, pub1), ShownVersion(q, pkg1, pub1)]);
  }

  lemma VersionIdOf(pub: string, pkg: string, ver: string)
    ensures DigestQuoted(pub, pkg, ver).versionId == ver
  {
  }

  lemma ShownPublisherIsPlain(id: string)
    requires PlainJson(id)
    ensures var hit: Row := map["id" := id, "name" := "pub-1"]; PlainRow(hit) && AllPlain([hit])
  {
    assert PlainJson("id") && PlainJson("name") && PlainJson("pub-1");
  }
}
