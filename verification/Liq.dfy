/** The liq syntax tree and its lowering to parameterized SQL. */
module Liq {
  import opened Text
  import opened Catalog
  import opened Flatten

  /** A right-hand side: `$name`, a quoted constant or an integer constant. */
  datatype Rhs = ParamRef(name: string) | ConstText(text: string) | ConstInt(number: nat)

  datatype Predicate = Predicate(column: string, rhs: Rhs)

  datatype Binding = Binding(field: string, rhs: Rhs)

  datatype Stmt =
    | Read(table: string, columns: Option<seq<string>>, where: Option<Predicate>,
           order: Option<Ordering>, limit: Option<nat>)
    | Insert(table: string, bindings: seq<Binding>)
    | Update(table: string, bindings: seq<Binding>, where: Option<Predicate>, returning: Option<seq<string>>)
    | Delete(table: string, where: Option<Predicate>)

  datatype Ordering = Ordering(column: string, desc: bool)

  /** A Python dict that keeps insertion order. */
  type Schema = seq<(string, string)>

  function Keys(d: Schema): (ks: seq<string>)
    ensures |ks| == |d| && forall i :: 0 <= i < |d| ==> ks[i] == d[i].0
  {
    seq(|d|, i requires 0 <= i < |d| => d[i].0)
  }

  predicate HasKey(d: Schema, k: string) {
    exists i :: 0 <= i < |d| && d[i].0 == k
  }

  /** `d[k] = v`: an existing key keeps its place, a new one goes last. */
  function Put(d: Schema, k: string, v: string): (r: Schema)
    ensures Keys(r) == if HasKey(d, k) then Keys(d) else Keys(d) + [k]
  {
    if HasKey(d, k) then seq(|d|, i requires 0 <= i < |d| => if d[i].0 == k then (k, v) else d[i])
    else d + [(k, v)]
  }

  const PARAM_TYPES: map<string, string> := map[
    "status" := "text", "publisher_id" := "uuid", "pub" := "uuid", "pkg" := "uuid", "ver" := "text",
    "sha" := "text", "name" := "text", "id" := "uuid", "rid" := "uuid"
  ]

  function ParamType(name: string): string {
    if name in PARAM_TYPES then PARAM_TYPES[name] else "text"
  }

  datatype Lowered = Lowered(sql: string, schema: Schema)

  // ---------------------------------------------------------------- names

  /** `"schema"."name"` */
  function QuotedTable(cat: Allowlist, raw: string): Result<string> {
    var t :- ResolveTable(cat, raw);
    Ok(Quoted(t.0, "." + Quoted(t.1, "")))
  }

  /** `"schema"."table"."column"` */
  function QuotedColumn(cat: Allowlist, raw: string, column: string): Result<string> {
    var c :- ResolveColumn(cat, raw, column);
    Ok(Quoted(c.0, "." + Quoted(c.1, "." + Quoted(c.2, ""))))
  }

  function QuotedColumns(cat: Allowlist, raw: string, columns: seq<string>): (r: Result<seq<string>>)
    ensures r.Ok? ==> |r.value| == |columns|
    ensures r.Ok? ==> forall i :: 0 <= i < |columns| ==> QuotedColumn(cat, raw, columns[i]) == Ok(r.value[i])
  {
    if columns == [] then Ok([])
    else
      var first :- QuotedColumn(cat, raw, columns[0]);
      var rest :- QuotedColumns(cat, raw, columns[1..]);
      Ok([first] + rest)
  }

  // ---------------------------------------------------------------- what the loops compute

  /** How many of the bindings are parameters: the value of `idx` after them. */
  function ParamCount(bs: seq<Binding>): nat {
    if bs == [] then 0
    else ParamCount(bs[..|bs| - 1]) + (if bs[|bs| - 1].rhs.ParamRef? then 1 else 0)
  }

  /** The value text of binding `i`: the next slot for a parameter, a bare `%s` for a constant. */
  function ValueText(bs: seq<Binding>, i: nat): string
    requires i < |bs|
  {
    if bs[i].rhs.ParamRef? then "$" + Decimal(ParamCount(bs[..i]) + 1) else "%s"
  }

  function ValueTexts(bs: seq<Binding>): seq<string> {
    seq(|bs|, i requires 0 <= i < |bs| => ValueText(bs, i))
  }

  /** The parameter names in order, repetitions included. */
  function ParamNames(bs: seq<Binding>): seq<string> {
    if bs == [] then []
    else
      var last := bs[|bs| - 1].rhs;
      ParamNames(bs[..|bs| - 1]) + (if last.ParamRef? then [last.name] else [])
  }

  /** The schema after assigning the type of every name in turn. */
  function SchemaOf(names: seq<string>): Schema {
    if names == [] then []
    else
      var last := names[|names| - 1];
      Put(SchemaOf(names[..|names| - 1]), last, ParamType(last))
  }

  /** Names with later repetitions left out: `_collect_params` of the names. */
  function FirstUses(names: seq<string>): (r: seq<string>)
    ensures forall n :: n in r <==> n in names
    ensures forall i, j :: 0 <= i < j < |r| ==> r[i] != r[j]
  {
    if names == [] then []
    else
      var r := FirstUses(names[..|names| - 1]);
      var last := names[|names| - 1];
      assert names == names[..|names| - 1] + [last];
      if last in r then r else r + [last]
  }

  predicate Distinct(names: seq<string>) {
    forall i, j :: 0 <= i < j < |names| ==> names[i] != names[j]
  }

  function WhereNames(w: Option<Predicate>): seq<string> {
    if w.Some? && w.value.rhs.ParamRef? then [w.value.rhs.name] else []
  }

  /** Every parameter of a statement, in the order its slots are numbered. */
  function StmtParams(s: Stmt): seq<string> {
    match s
    case Read(_, _, w, _, _) => WhereNames(w)
    case Insert(_, bs) => ParamNames(bs)
    case Update(_, bs, w, _) => ParamNames(bs) + WhereNames(w)
    case Delete(_, w) => WhereNames(w)
  }

  function SetTexts(fields: seq<string>, bs: seq<Binding>): seq<string>
    requires |fields| == |bs|
  {
    seq(|bs|, i requires 0 <= i < |bs| => fields[i] + " = " + ValueText(bs, i))
  }

  function Fields(bs: seq<Binding>): (r: seq<string>)
    ensures |r| == |bs| && forall i :: 0 <= i < |bs| ==> r[i] == bs[i].field
  {
    seq(|bs|, i requires 0 <= i < |bs| => bs[i].field)
  }

  /** A WHERE clause on slot `index`; a constant on the right is a compile error. */
  function WhereText(cat: Allowlist, raw: string, w: Option<Predicate>, index: nat): Result<string> {
    if w.None? then Ok("")
    else if !w.value.rhs.ParamRef? then CompileError("where rhs must be a parameter")
    else
      var c :- QuotedColumn(cat, raw, w.value.column);
      Ok(" WHERE " + c + " = $" + Decimal(index))
  }

  function ProjectionText(cat: Allowlist, raw: string, columns: Option<seq<string>>): Result<string> {
    if columns.None? || columns.value == [] then Ok("*")
    else
      var cols :- QuotedColumns(cat, raw, columns.value);
      Ok(Join(cols, ", "))
  }

  function OrderText(cat: Allowlist, raw: string, o: Option<Ordering>): Result<string> {
    if o.None? then Ok("")
    else
      var c :- QuotedColumn(cat, raw, o.value.column);
      Ok(" ORDER BY " + c + (if o.value.desc then " DESC" else " ASC"))
  }

  function ReturningText(cat: Allowlist, raw: string, columns: Option<seq<string>>): Result<string> {
    if columns.None? || columns.value == [] then Ok("")
    else
      var cols :- QuotedColumns(cat, raw, columns.value);
      Ok(" RETURNING " + Join(cols, ", "))
  }

  // ---------------------------------------------------------------- lowering

  function LowerRead(cat: Allowlist, s: Stmt): Result<Lowered>
    requires s.Read?
  {
    var table :- QuotedTable(cat, s.table);
    var cols :- ProjectionText(cat, s.table, s.columns);
    var where :- WhereText(cat, s.table, s.where, 1);
    var order :- OrderText(cat, s.table, s.order);
    var limit := if s.limit.None? then "" else " LIMIT " + Decimal(s.limit.value);
    Ok(Lowered("SELECT " + cols + " FROM " + table + where + order + limit, SchemaOf(WhereNames(s.where))))
  }

  function LowerInsert(cat: Allowlist, s: Stmt): Result<Lowered>
    requires s.Insert?
  {
    var table :- QuotedTable(cat, s.table);
    var fields :- QuotedColumns(cat, s.table, Fields(s.bindings));
    Ok(Lowered("INSERT INTO " + table + " (" + Join(fields, ", ") + ") VALUES (" + Join(ValueTexts(s.bindings), ", ") + ")",
               SchemaOf(ParamNames(s.bindings))))
  }

  function LowerUpdate(cat: Allowlist, s: Stmt): Result<Lowered>
    requires s.Update?
  {
    var table :- QuotedTable(cat, s.table);
    var fields :- QuotedColumns(cat, s.table, Fields(s.bindings));
    var where :- WhereText(cat, s.table, s.where, ParamCount(s.bindings) + 1);
    var returning :- ReturningText(cat, s.table, s.returning);
    Ok(Lowered("UPDATE " + table + " SET " + Join(SetTexts(fields, s.bindings), ", ") + where + returning,
               SchemaOf(ParamNames(s.bindings) + WhereNames(s.where))))
  }

  function LowerDelete(cat: Allowlist, s: Stmt): Result<Lowered>
    requires s.Delete?
  {
    var table :- QuotedTable(cat, s.table);
    var where :- WhereText(cat, s.table, s.where, 1);
    Ok(Lowered("DELETE FROM " + table + where, SchemaOf(WhereNames(s.where))))
  }

  /** The dispatch of `compile` after parsing. */
  function LowerStmt(cat: Allowlist, s: Stmt): Result<Lowered> {
    match s
    case Read(_, _, _, _, _) => LowerRead(cat, s)
    case Insert(_, _) => LowerInsert(cat, s)
    case Update(_, _, _, _) => LowerUpdate(cat, s)
    case Delete(_, _) => LowerDelete(cat, s)
  }
}
