/**
 What a lowered statement looks like: its qualified text as rendered pieces, its
 unqualified text, and how its slots and its parameter schema line up.
 */
module Lowering {
  import opened Text
  import opened Catalog
  import opened Flatten
  import opened Liq

  // ---------------------------------------------------------------- rendering lists of pieces

  lemma RenderPieceOnto(p: Piece, t: string)
    ensures RenderPiece(p, t) == RenderPiece(p, "") + t
  {
    hide Quoted, Decimal;
    match p
    case Lit(x) =>
      assert x + "" == x;
    case Slot(n) =>
      assert Decimal(n) + "" == Decimal(n);
      Assoc3("$", Decimal(n), t);
    case Table(a, b) =>
      QuotedOnto(b, t);
      DottedOnto(a, Quoted(b, ""), t);
    case Column(a, b, c) =>
      QuotedOnto(c, t);
      DottedOnto(b, Quoted(c, ""), t);
      DottedOnto(a, Quoted(b, "." + Quoted(c, "")), t);
  }

  lemma DottedOnto(a: string, x: string, t: string)
    ensures Quoted(a, "." + (x + t)) == Quoted(a, "." + x) + t
  {
    hide Quoted;
    QuotedOnto(a, "." + (x + t));
    QuotedOnto(a, "." + x);
    Assoc3(".", x, t);
    Assoc3(Quoted(a, ""), "." + x, t);
  }

  lemma QuotedOnto(a: string, t: string)
    ensures Quoted(a, t) == Quoted(a, "") + t
  {
  }

  lemma {:induction false} RenderConcat(a: seq<Piece>, b: seq<Piece>)
    ensures Render(a + b) == Render(a) + Render(b)
  {
    if a == [] {
      assert a + b == b;
    } else {
      assert (a + b)[0] == a[0] && (a + b)[1..] == a[1..] + b;
      RenderConcat(a[1..], b);
      RenderPieceOnto(a[0], Render(a[1..]) + Render(b));
      RenderPieceOnto(a[0], Render(a[1..]));
    }
  }

  lemma {:induction false} RenderFlatConcat(a: seq<Piece>, b: seq<Piece>)
    ensures RenderFlat(a + b) == RenderFlat(a) + RenderFlat(b)
  {
    if a == [] {
      assert a + b == b;
    } else {
      assert (a + b)[0] == a[0] && (a + b)[1..] == a[1..] + b;
      RenderFlatConcat(a[1..], b);
    }
  }

  /** Groups of pieces separated by `, `. */
  function Commas(items: seq<seq<Piece>>): seq<Piece> {
    if |items| == 0 then []
    else if |items| == 1 then items[0]
    else items[0] + ([Lit(", ")] + Commas(items[1..]))
  }

  function RenderEach(items: seq<seq<Piece>>): (r: seq<string>)
    ensures |r| == |items| && forall i :: 0 <= i < |items| ==> r[i] == Render(items[i])
  {
    seq(|items|, i requires 0 <= i < |items| => Render(items[i]))
  }

  function RenderFlatEach(items: seq<seq<Piece>>): (r: seq<string>)
    ensures |r| == |items| && forall i :: 0 <= i < |items| ==> r[i] == RenderFlat(items[i])
  {
    seq(|items|, i requires 0 <= i < |items| => RenderFlat(items[i]))
  }

  lemma CommaStep(a: seq<Piece>, b: seq<Piece>)
    ensures Render(a + ([Lit(", ")] + b)) == Render(a) + ", " + Render(b)
    ensures RenderFlat(a + ([Lit(", ")] + b)) == RenderFlat(a) + ", " + RenderFlat(b)
  {
    RenderConcat(a, [Lit(", ")] + b);
    RenderConcat([Lit(", ")], b);
    RenderFlatConcat(a, [Lit(", ")] + b);
    RenderFlatConcat([Lit(", ")], b);
    assert ", " + "" == ", ";
    Assoc3(Render(a), ", ", Render(b));
    Assoc3(RenderFlat(a), ", ", RenderFlat(b));
  }

  lemma {:induction false} RenderCommas(items: seq<seq<Piece>>)
    ensures Render(Commas(items)) == Join(RenderEach(items), ", ")
    ensures RenderFlat(Commas(items)) == Join(RenderFlatEach(items), ", ")
  {
    if |items| > 1 {
      RenderCommas(items[1..]);
      CommaStep(items[0], Commas(items[1..]));
      assert RenderEach(items)[1..] == RenderEach(items[1..]);
      assert RenderFlatEach(items)[1..] == RenderFlatEach(items[1..]);
    }
  }

  lemma {:induction false} GoodCommas(items: seq<seq<Piece>>)
    requires forall i :: 0 <= i < |items| ==> items[i] != [] && GoodPieces(items[i])
    ensures GoodPieces(Commas(items))
  {
    if |items| > 1 {
      GoodCommas(items[1..]);
    }
  }

  // ---------------------------------------------------------------- statements as pieces

  function ColumnItems(table: string, columns: seq<string>): (r: seq<seq<Piece>>)
    ensures |r| == |columns| && forall i :: 0 <= i < |columns| ==> r[i] == [Column("public", table, columns[i])]
  {
    seq(|columns|, i requires 0 <= i < |columns| => [Column("public", table, columns[i])])
  }

  function ValuePiece(bs: seq<Binding>, i: nat): Piece
    requires i < |bs|
  {
    if bs[i].rhs.ParamRef? then Slot(ParamCount(bs[..i]) + 1) else Lit("%s")
  }

  function ValueItems(bs: seq<Binding>): (r: seq<seq<Piece>>)
    ensures |r| == |bs| && forall i :: 0 <= i < |bs| ==> r[i] == [ValuePiece(bs, i)]
  {
    seq(|bs|, i requires 0 <= i < |bs| => [ValuePiece(bs, i)])
  }

  function SetItems(table: string, bs: seq<Binding>): (r: seq<seq<Piece>>)
    ensures |r| == |bs|
    ensures forall i :: 0 <= i < |bs| ==> r[i] == [Column("public", table, bs[i].field), Lit(" = "), ValuePiece(bs, i)]
  {
    seq(|bs|, i requires 0 <= i < |bs| => [Column("public", table, bs[i].field), Lit(" = "), ValuePiece(bs, i)])
  }

  function WherePieces(table: string, w: Option<Predicate>, index: nat): seq<Piece> {
    if w.None? then [] else [Lit(" WHERE "), Column("public", table, w.value.column), Lit(" = "), Slot(index)]
  }

  function OrderPieces(table: string, o: Option<Ordering>): seq<Piece> {
    if o.None? then []
    else [Lit(" ORDER BY "), Column("public", table, o.value.column), Lit(if o.value.desc then " DESC" else " ASC")]
  }

  function LimitPieces(l: Option<nat>): seq<Piece> {
    if l.None? then [] else [Lit(" LIMIT " + Decimal(l.value))]
  }

  function ProjectionPieces(table: string, columns: Option<seq<string>>): seq<Piece> {
    if columns.None? || columns.value == [] then [Lit("*")] else Commas(ColumnItems(table, columns.value))
  }

  function ReturningPieces(table: string, columns: Option<seq<string>>): seq<Piece> {
    if columns.None? || columns.value == [] then []
    else [Lit(" RETURNING ")] + Commas(ColumnItems(table, columns.value))
  }

  function ReadTail(table: string, s: Stmt): seq<Piece>
    requires s.Read?
  {
    WherePieces(table, s.where, 1) + (OrderPieces(table, s.order) + LimitPieces(s.limit))
  }

  /** The pieces of the lowered text of `s` over the resolved table name. */
  function StmtPieces(table: string, s: Stmt): seq<Piece> {
    match s
    case Read(_, columns, _, _, _) =>
      [Lit("SELECT ")] + (ProjectionPieces(table, columns) + ([Lit(" FROM "), Table("public", table)] + ReadTail(table, s)))
    case Insert(_, bs) =>
      [Lit("INSERT INTO "), Table("public", table), Lit(" (")]
      + (Commas(ColumnItems(table, Fields(bs))) + ([Lit(") VALUES (")] + (Commas(ValueItems(bs)) + [Lit(")")])))
    case Update(_, bs, w, returning) =>
      [Lit("UPDATE "), Table("public", table), Lit(" SET ")]
      + (Commas(SetItems(table, bs)) + (WherePieces(table, w, ParamCount(bs) + 1) + ReturningPieces(table, returning)))
    case Delete(_, w) =>
      [Lit("DELETE FROM "), Table("public", table)] + WherePieces(table, w, 1)
  }

  // ---------------------------------------------------------------- the unqualified text

  function FlatProjection(columns: Option<seq<string>>): string {
    if columns.None? || columns.value == [] then "*" else Join(columns.value, ", ")
  }

  function FlatWhere(w: Option<Predicate>): string {
    if w.None? then "" else " WHERE " + w.value.column + " = ?"
  }

  function FlatOrder(o: Option<Ordering>): string {
    if o.None? then "" else " ORDER BY " + o.value.column + (if o.value.desc then " DESC" else " ASC")
  }

  function FlatLimit(l: Option<nat>): string {
    if l.None? then "" else " LIMIT " + Decimal(l.value)
  }

  function FlatReturning(r: Option<seq<string>>): string {
    if r.None? || r.value == [] then "" else " RETURNING " + Join(r.value, ", ")
  }

  function FlatValue(b: Binding): string {
    if b.rhs.ParamRef? then "?" else "%s"
  }

  function FlatValues(bs: seq<Binding>): (r: seq<string>)
    ensures |r| == |bs| && forall i :: 0 <= i < |bs| ==> r[i] == FlatValue(bs[i])
  {
    seq(|bs|, i requires 0 <= i < |bs| => FlatValue(bs[i]))
  }

  function FlatSets(bs: seq<Binding>): (r: seq<string>)
    ensures |r| == |bs| && forall i :: 0 <= i < |bs| ==> r[i] == bs[i].field + " = " + FlatValue(bs[i])
  {
    seq(|bs|, i requires 0 <= i < |bs| => bs[i].field + " = " + FlatValue(bs[i]))
  }

  /** The SQL a statement stands for, unqualified and with `?` slots. */
  function FlatText(table: string, s: Stmt): string {
    match s
    case Read(_, columns, w, o, l) =>
      "SELECT " + FlatProjection(columns) + " FROM " + table + FlatWhere(w) + FlatOrder(o) + FlatLimit(l)
    case Insert(_, bs) =>
      "INSERT INTO " + table + " (" + Join(Fields(bs), ", ") + ") VALUES (" + Join(FlatValues(bs), ", ") + ")"
    case Update(_, bs, w, returning) =>
      "UPDATE " + table + " SET " + Join(FlatSets(bs), ", ") + FlatWhere(w) + FlatReturning(returning)
    case Delete(_, w) =>
      "DELETE FROM " + table + FlatWhere(w)
  }

  // ---------------------------------------------------------------- the qualified text

  function QTable(t: string): string {
    Quoted("public", "." + Quoted(t, ""))
  }

  function QColumn(t: string, c: string): string {
    Quoted("public", "." + Quoted(t, "." + Quoted(c, "")))
  }

  function QColumns(t: string, cs: seq<string>): (r: seq<string>)
    ensures |r| == |cs| && forall i :: 0 <= i < |cs| ==> r[i] == QColumn(t, cs[i])
  {
    seq(|cs|, i requires 0 <= i < |cs| => QColumn(t, cs[i]))
  }

  function QProjection(t: string, columns: Option<seq<string>>): string {
    if columns.None? || columns.value == [] then "*" else Join(QColumns(t, columns.value), ", ")
  }

  function QWhere(t: string, w: Option<Predicate>, index: nat): string {
    if w.None? then "" else " WHERE " + QColumn(t, w.value.column) + " = $" + Decimal(index)
  }

  function QOrder(t: string, o: Option<Ordering>): string {
    if o.None? then "" else " ORDER BY " + QColumn(t, o.value.column) + (if o.value.desc then " DESC" else " ASC")
  }

  function QSets(t: string, bs: seq<Binding>): (r: seq<string>)
    ensures |r| == |bs| && forall i :: 0 <= i < |bs| ==> r[i] == QColumn(t, bs[i].field) + " = " + ValueText(bs, i)
  {
    seq(|bs|, i requires 0 <= i < |bs| => QColumn(t, bs[i].field) + " = " + ValueText(bs, i))
  }

  function QReturning(t: string, r: Option<seq<string>>): string {
    if r.None? || r.value == [] then "" else " RETURNING " + Join(QColumns(t, r.value), ", ")
  }

  /** The text `compile` emits for a statement over the resolved table `t`. */
  function QualText(t: string, s: Stmt): string {
    match s
    case Read(_, columns, w, o, l) =>
      "SELECT " + QProjection(t, columns) + " FROM " + QTable(t) + QWhere(t, w, 1) + QOrder(t, o) + FlatLimit(l)
    case Insert(_, bs) =>
      "INSERT INTO " + QTable(t) + " (" + Join(QColumns(t, Fields(bs)), ", ") + ") VALUES (" + Join(ValueTexts(bs), ", ") + ")"
    case Update(_, bs, w, r) =>
      "UPDATE " + QTable(t) + " SET " + Join(QSets(t, bs), ", ") + QWhere(t, w, ParamCount(bs) + 1) + QReturning(t, r)
    case Delete(_, w) =>
      "DELETE FROM " + QTable(t) + QWhere(t, w, 1)
  }

  predicate CleanColumns(cs: Option<seq<string>>) {
    cs.Some? ==> forall i :: 0 <= i < |cs.value| ==> CleanName(cs.value[i])
  }

  predicate CleanFields(bs: seq<Binding>) {
    forall i :: 0 <= i < |bs| ==> CleanName(bs[i].field)
  }

  predicate CleanWhere(w: Option<Predicate>) {
    w.Some? ==> CleanName(w.value.column) && w.value.rhs.ParamRef?
  }

  /** Every column a statement names is clean, and a WHERE compares with a parameter. */
  predicate CleanStmt(s: Stmt) {
    match s
    case Read(_, cs, w, o, _) => CleanColumns(cs) && CleanWhere(w) && (o.Some? ==> CleanName(o.value.column))
    case Insert(_, bs) => CleanFields(bs)
    case Update(_, bs, w, r) => CleanFields(bs) && CleanWhere(w) && CleanColumns(r)
    case Delete(_, w) => CleanWhere(w)
  }

  // ---------------------------------------------------------------- lowering emits the qualified text

  lemma ColumnResolves(cat: Allowlist, raw: string, column: string)
    requires CleanAllowlist(cat) && QuotedColumn(cat, raw, column).Ok?
    ensures ResolveTable(cat, raw).Ok? && CleanName(column)
    ensures QuotedColumn(cat, raw, column) == Ok(QColumn(ResolveTable(cat, raw).value.1, column))
  {
    ResolvedColumnIsClean(cat, raw, column);
    ResolvedTableIsClean(cat, raw);
  }

  lemma QuotedColumnsStep(cat: Allowlist, raw: string, columns: seq<string>)
    requires columns != [] && QuotedColumns(cat, raw, columns).Ok?
    ensures QuotedColumn(cat, raw, columns[0]).Ok? && QuotedColumns(cat, raw, columns[1..]).Ok?
    ensures QuotedColumns(cat, raw, columns)
            == Ok([QuotedColumn(cat, raw, columns[0]).value] + QuotedColumns(cat, raw, columns[1..]).value)
  {
    hide QuotedColumn;
  }

  lemma QColumnsStep(t: string, columns: seq<string>)
    requires columns != []
    ensures QColumns(t, columns) == [QColumn(t, columns[0])] + QColumns(t, columns[1..])
  {
    hide QColumn;
  }

  lemma {:induction false} ColumnsResolve(cat: Allowlist, raw: string, columns: seq<string>)
    requires CleanAllowlist(cat) && QuotedColumns(cat, raw, columns).Ok? && ResolveTable(cat, raw).Ok?
    ensures forall i :: 0 <= i < |columns| ==> CleanName(columns[i])
    ensures QuotedColumns(cat, raw, columns) == Ok(QColumns(ResolveTable(cat, raw).value.1, columns))
  {
    hide QuotedColumn, QColumn, ResolveTable, CleanName, CleanAllowlist;
    if columns == [] {
      assert QColumns(ResolveTable(cat, raw).value.1, columns) == [];
    } else {
      ColumnsResolveStep(cat, raw, columns);
      ColumnsResolve(cat, raw, columns[1..]);
      QColumnsStep(ResolveTable(cat, raw).value.1, columns);
    }
  }

  lemma ColumnsResolveStep(cat: Allowlist, raw: string, columns: seq<string>)
    requires CleanAllowlist(cat) && columns != [] && QuotedColumns(cat, raw, columns).Ok? && ResolveTable(cat, raw).Ok?
    ensures CleanName(columns[0]) && QuotedColumns(cat, raw, columns[1..]).Ok?
    ensures QuotedColumns(cat, raw, columns)
            == Ok([QColumn(ResolveTable(cat, raw).value.1, columns[0])] + QuotedColumns(cat, raw, columns[1..]).value)
  {
    hide QuotedColumn, QuotedColumns, QColumn, ResolveTable, CleanName, CleanAllowlist;
    QuotedColumnsStep(cat, raw, columns);
    ColumnResolves(cat, raw, columns[0]);
  }

  lemma WhereResolves(cat: Allowlist, raw: string, w: Option<Predicate>, index: nat)
    requires CleanAllowlist(cat) && WhereText(cat, raw, w, index).Ok? && ResolveTable(cat, raw).Ok?
    ensures CleanWhere(w) && WhereText(cat, raw, w, index) == Ok(QWhere(ResolveTable(cat, raw).value.1, w, index))
  {
    if w.Some? {
      ColumnResolves(cat, raw, w.value.column);
    }
  }

  lemma ProjectionResolves(cat: Allowlist, raw: string, columns: Option<seq<string>>)
    requires CleanAllowlist(cat) && ProjectionText(cat, raw, columns).Ok? && ResolveTable(cat, raw).Ok?
    ensures CleanColumns(columns) && ProjectionText(cat, raw, columns) == Ok(QProjection(ResolveTable(cat, raw).value.1, columns))
  {
    if columns.Some? && columns.value != [] {
      ColumnsResolve(cat, raw, columns.value);
    }
  }

  lemma OrderResolves(cat: Allowlist, raw: string, o: Option<Ordering>)
    requires CleanAllowlist(cat) && OrderText(cat, raw, o).Ok? && ResolveTable(cat, raw).Ok?
    ensures o.Some? ==> CleanName(o.value.column)
    ensures OrderText(cat, raw, o) == Ok(QOrder(ResolveTable(cat, raw).value.1, o))
  {
    if o.Some? {
      ColumnResolves(cat, raw, o.value.column);
    }
  }

  lemma ReturningResolves(cat: Allowlist, raw: string, columns: Option<seq<string>>)
    requires CleanAllowlist(cat) && ReturningText(cat, raw, columns).Ok? && ResolveTable(cat, raw).Ok?
    ensures CleanColumns(columns) && ReturningText(cat, raw, columns) == Ok(QReturning(ResolveTable(cat, raw).value.1, columns))
  {
    if columns.Some? && columns.value != [] {
      ColumnsResolve(cat, raw, columns.value);
    }
  }

  lemma ReadEmits(cat: Allowlist, s: Stmt)
    requires CleanAllowlist(cat) && s.Read? && LowerRead(cat, s).Ok? && ResolveTable(cat, s.table).Ok?
    requires QuotedTable(cat, s.table) == Ok(QTable(ResolveTable(cat, s.table).value.1))
    ensures CleanStmt(s)
    ensures LowerRead(cat, s).value.sql == QualText(ResolveTable(cat, s.table).value.1, s)
  {
    ProjectionResolves(cat, s.table, s.columns);
    WhereResolves(cat, s.table, s.where, 1);
    OrderResolves(cat, s.table, s.order);
  }

  lemma InsertEmits(cat: Allowlist, s: Stmt)
    requires CleanAllowlist(cat) && s.Insert? && LowerInsert(cat, s).Ok? && ResolveTable(cat, s.table).Ok?
    requires QuotedTable(cat, s.table) == Ok(QTable(ResolveTable(cat, s.table).value.1))
    ensures CleanStmt(s)
    ensures LowerInsert(cat, s).value.sql == QualText(ResolveTable(cat, s.table).value.1, s)
  {
    ColumnsResolve(cat, s.table, Fields(s.bindings));
    FieldsClean(s.bindings);
  }

  lemma UpdateEmits(cat: Allowlist, s: Stmt)
    requires CleanAllowlist(cat) && s.Update? && LowerUpdate(cat, s).Ok? && ResolveTable(cat, s.table).Ok?
    requires QuotedTable(cat, s.table) == Ok(QTable(ResolveTable(cat, s.table).value.1))
    ensures CleanStmt(s)
    ensures LowerUpdate(cat, s).value.sql == QualText(ResolveTable(cat, s.table).value.1, s)
  {
    hide CleanName, CleanAllowlist, ResolveTable, Join, ParamCount;
    var t := ResolveTable(cat, s.table).value.1;
    ColumnsResolve(cat, s.table, Fields(s.bindings));
    FieldsClean(s.bindings);
    WhereResolves(cat, s.table, s.where, ParamCount(s.bindings) + 1);
    ReturningResolves(cat, s.table, s.returning);
    assert SetTexts(QColumns(t, Fields(s.bindings)), s.bindings) == QSets(t, s.bindings);
  }

  lemma DeleteEmits(cat: Allowlist, s: Stmt)
    requires CleanAllowlist(cat) && s.Delete? && LowerDelete(cat, s).Ok? && ResolveTable(cat, s.table).Ok?
    requires QuotedTable(cat, s.table) == Ok(QTable(ResolveTable(cat, s.table).value.1))
    ensures CleanStmt(s)
    ensures LowerDelete(cat, s).value.sql == QualText(ResolveTable(cat, s.table).value.1, s)
  {
    WhereResolves(cat, s.table, s.where, 1);
  }

  /** What compiles names a clean table and clean columns, and its text is the qualified text. */
  lemma LoweringEmits(cat: Allowlist, s: Stmt)
    requires CleanAllowlist(cat) && LowerStmt(cat, s).Ok?
    ensures ResolveTable(cat, s.table).Ok?
    ensures var t := ResolveTable(cat, s.table).value.1;
            CleanName(t) && CleanStmt(s) && LowerStmt(cat, s).value.sql == QualText(t, s)
  {
    assert QuotedTable(cat, s.table).Ok?;
    ResolvedTableIsClean(cat, s.table);
    match s {
      case Read(_, _, _, _, _) => ReadEmits(cat, s);
      case Insert(_, _) => InsertEmits(cat, s);
      case Update(_, _, _, _) => UpdateEmits(cat, s);
      case Delete(_, _) => DeleteEmits(cat, s);
    }
  }

  lemma FieldsClean(bs: seq<Binding>)
    requires forall i :: 0 <= i < |bs| ==> CleanName(Fields(bs)[i])
    ensures CleanFields(bs)
  {
    assert forall i :: 0 <= i < |bs| ==> Fields(bs)[i] == bs[i].field;
  }

  // ---------------------------------------------------------------- pieces show both texts

  /** The three views of a list of pieces agree: qualified text, unqualified text, good shape. */
  predicate Shows(ps: seq<Piece>, qualified: string, flat: string) {
    Render(ps) == qualified && RenderFlat(ps) == flat && GoodPieces(ps)
  }

  predicate StartsLit(ps: seq<Piece>) {
    ps == [] || ps[0].Lit?
  }

  predicate EndsLit(ps: seq<Piece>) {
    ps == [] || ps[|ps| - 1].Lit?
  }

  lemma ShowsConcat(a: seq<Piece>, b: seq<Piece>, qa: string, qb: string, fa: string, fb: string)
    requires Shows(a, qa, fa) && Shows(b, qb, fb) && (EndsLit(a) || StartsLit(b))
    ensures Shows(a + b, qa + qb, fa + fb)
  {
    RenderConcat(a, b);
    RenderFlatConcat(a, b);
  }

  lemma Shows3(a: seq<Piece>, b: seq<Piece>, c: seq<Piece>,
               qa: string, qb: string, qc: string, fa: string, fb: string, fc: string)
    requires Shows(a, qa, fa) && Shows(b, qb, fb) && Shows(c, qc, fc)
    requires EndsLit(a) || (StartsLit(b) && (b != [] || StartsLit(c)))
    requires EndsLit(b) || StartsLit(c)
    ensures Shows(a + (b + c), qa + qb + qc, fa + fb + fc)
  {
    hide Shows;
    ShowsConcat(b, c, qb, qc, fb, fc);
    ShowsConcat(a, b + c, qa, qb + qc, fa, fb + fc);
    Assoc3(qa, qb, qc);
    Assoc3(fa, fb, fc);
  }

  lemma ShowsNone()
    ensures Shows([], "", "")
  {
  }

  lemma ShowsLit(x: string)
    requires GoodPiece(Lit(x))
    ensures Shows([Lit(x)], x, x)
  {
    assert x + "" == x;
  }

  lemma ShowsSlot(n: nat)
    ensures Shows([Slot(n)], "$" + Decimal(n), "?")
  {
    assert Decimal(n) + "" == Decimal(n);
  }

  lemma ShowsColumn(t: string, c: string)
    requires CleanName(t) && CleanName(c)
    ensures Shows([Column("public", t, c)], QColumn(t, c), c)
  {
  }

  lemma ShowsTable(t: string)
    requires CleanName(t)
    ensures Shows([Table("public", t)], QTable(t), t)
  {
  }

  lemma ShowsCommas(items: seq<seq<Piece>>, qualified: seq<string>, flat: seq<string>)
    requires |items| == |qualified| == |flat|
    requires forall i :: 0 <= i < |items| ==> items[i] != [] && Shows(items[i], qualified[i], flat[i])
    ensures Shows(Commas(items), Join(qualified, ", "), Join(flat, ", "))
  {
    RenderCommas(items);
    GoodCommas(items);
    assert RenderEach(items) == qualified;
    assert RenderFlatEach(items) == flat;
  }

  lemma ShowsColumns(t: string, cs: seq<string>)
    requires CleanName(t) && forall i :: 0 <= i < |cs| ==> CleanName(cs[i])
    ensures Shows(Commas(ColumnItems(t, cs)), Join(QColumns(t, cs), ", "), Join(cs, ", "))
  {
    hide Shows;
    forall i | 0 <= i < |cs|
      ensures Shows(ColumnItems(t, cs)[i], QColumn(t, cs[i]), cs[i])
    {
      ShowsColumn(t, cs[i]);
    }
    ShowsCommas(ColumnItems(t, cs), QColumns(t, cs), cs);
  }

  /** A piece between two literal texts. */
  lemma ShowsBetween(x: string, p: Piece, qualified: string, flat: string, y: string)
    requires Shows([p], qualified, flat) && GoodPiece(Lit(x)) && GoodPiece(Lit(y))
    ensures Shows([Lit(x), p, Lit(y)], x + qualified + y, x + flat + y)
  {
    hide Shows;
    ShowsLit(x);
    ShowsLit(y);
    Shows3([Lit(x)], [p], [Lit(y)], x, qualified, y, x, flat, y);
    assert [Lit(x)] + ([p] + [Lit(y)]) == [Lit(x), p, Lit(y)];
  }

  lemma ShowsWhere(t: string, w: Option<Predicate>, index: nat)
    requires CleanName(t) && CleanWhere(w)
    ensures Shows(WherePieces(t, w, index), QWhere(t, w, index), FlatWhere(w)) && StartsLit(WherePieces(t, w, index))
  {
    hide Shows;
    ShowsNone();
    if w.Some? {
      var c := w.value.column;
      ShowsColumn(t, c);
      ShowsBetween(" WHERE ", Column("public", t, c), QColumn(t, c), c, " = ");
      ShowsComparison([Lit(" WHERE "), Column("public", t, c), Lit(" = ")], QColumn(t, c), c, index);
      assert WherePieces(t, w, index) == [Lit(" WHERE "), Column("public", t, c), Lit(" = ")] + [Slot(index)];
    }
  }

  lemma ShowsComparison(a: seq<Piece>, q: string, c: string, index: nat)
    requires Shows(a, " WHERE " + q + " = ", " WHERE " + c + " = ") && EndsLit(a)
    ensures Shows(a + [Slot(index)], " WHERE " + q + " = $" + Decimal(index), " WHERE " + c + " = ?")
  {
    hide Shows;
    ShowsSlot(index);
    ShowsConcat(a, [Slot(index)], " WHERE " + q + " = ", "$" + Decimal(index), " WHERE " + c + " = ", "?");
    Assoc3(" WHERE " + q + " = ", "$", Decimal(index));
    Assoc3(" WHERE " + q, " = ", "$");
    Assoc3(" WHERE " + c, " = ", "?");
    assert " = " + "$" == " = $" && " = " + "?" == " = ?";
  }

  lemma ShowsOrder(t: string, o: Option<Ordering>)
    requires CleanName(t) && (o.Some? ==> CleanName(o.value.column))
    ensures Shows(OrderPieces(t, o), QOrder(t, o), FlatOrder(o))
    ensures StartsLit(OrderPieces(t, o)) && EndsLit(OrderPieces(t, o))
  {
    hide Shows;
    ShowsNone();
    if o.Some? {
      var c := o.value.column;
      ShowsColumn(t, c);
      ShowsBetween(" ORDER BY ", Column("public", t, c), QColumn(t, c), c, if o.value.desc then " DESC" else " ASC");
    }
  }

  lemma ShowsLimit(l: Option<nat>)
    ensures Shows(LimitPieces(l), FlatLimit(l), FlatLimit(l)) && StartsLit(LimitPieces(l))
  {
    if l.Some? {
      var d := Decimal(l.value);
      assert forall i :: 0 <= i < |d| ==> d[i] != '"' && d[i] != '$';
      ShowsLit(" LIMIT " + d);
    }
  }

  lemma ShowsProjection(t: string, cs: Option<seq<string>>)
    requires CleanName(t) && CleanColumns(cs)
    ensures Shows(ProjectionPieces(t, cs), QProjection(t, cs), FlatProjection(cs))
  {
    hide Shows;
    if cs.None? || cs.value == [] {
      ShowsLit("*");
    } else {
      ShowsColumns(t, cs.value);
    }
  }

  lemma ShowsReturning(t: string, r: Option<seq<string>>)
    requires CleanName(t) && CleanColumns(r)
    ensures Shows(ReturningPieces(t, r), QReturning(t, r), FlatReturning(r)) && StartsLit(ReturningPieces(t, r))
  {
    hide Shows;
    ShowsNone();
    if r.Some? && r.value != [] {
      ShowsColumns(t, r.value);
      ShowsLit(" RETURNING ");
      ShowsConcat([Lit(" RETURNING ")], Commas(ColumnItems(t, r.value)), " RETURNING ", Join(QColumns(t, r.value), ", "),
                  " RETURNING ", Join(r.value, ", "));
    }
  }

  lemma ShowsValue(bs: seq<Binding>, i: nat)
    requires i < |bs|
    ensures Shows([ValuePiece(bs, i)], ValueText(bs, i), FlatValue(bs[i]))
  {
    hide Shows;
    if bs[i].rhs.ParamRef? {
      ShowsSlot(ParamCount(bs[..i]) + 1);
    } else {
      ShowsLit("%s");
    }
  }

  lemma ShowsValues(bs: seq<Binding>)
    ensures Shows(Commas(ValueItems(bs)), Join(ValueTexts(bs), ", "), Join(FlatValues(bs), ", "))
  {
    hide Shows;
    forall i | 0 <= i < |bs|
      ensures Shows(ValueItems(bs)[i], ValueTexts(bs)[i], FlatValues(bs)[i])
    {
      ShowsValue(bs, i);
    }
    ShowsCommas(ValueItems(bs), ValueTexts(bs), FlatValues(bs));
  }

  lemma ShowsSet(t: string, bs: seq<Binding>, i: nat)
    requires i < |bs| && CleanName(t) && CleanName(bs[i].field)
    ensures Shows(SetItems(t, bs)[i], QSets(t, bs)[i], FlatSets(bs)[i])
  {
    hide Shows;
    var f := bs[i].field;
    ShowsColumn(t, f);
    ShowsLit(" = ");
    ShowsValue(bs, i);
    Shows3([Column("public", t, f)], [Lit(" = ")], [ValuePiece(bs, i)],
           QColumn(t, f), " = ", ValueText(bs, i), f, " = ", FlatValue(bs[i]));
    assert [Column("public", t, f)] + ([Lit(" = ")] + [ValuePiece(bs, i)]) == SetItems(t, bs)[i];
  }

  lemma ShowsSets(t: string, bs: seq<Binding>)
    requires CleanName(t) && CleanFields(bs)
    ensures Shows(Commas(SetItems(t, bs)), Join(QSets(t, bs), ", "), Join(FlatSets(bs), ", "))
  {
    hide Shows;
    forall i | 0 <= i < |bs|
      ensures Shows(SetItems(t, bs)[i], QSets(t, bs)[i], FlatSets(bs)[i])
    {
      ShowsSet(t, bs, i);
    }
    ShowsCommas(SetItems(t, bs), QSets(t, bs), FlatSets(bs));
  }

  // ---------------------------------------------------------------- whole statements

  lemma ShowsReadTail(t: string, s: Stmt)
    requires s.Read? && CleanName(t) && CleanStmt(s)
    ensures StartsLit(ReadTail(t, s))
    ensures Shows(ReadTail(t, s), QWhere(t, s.where, 1) + QOrder(t, s.order) + FlatLimit(s.limit),
                  FlatWhere(s.where) + FlatOrder(s.order) + FlatLimit(s.limit))
  {
    hide Shows;
    ShowsWhere(t, s.where, 1);
    ShowsOrder(t, s.order);
    ShowsLimit(s.limit);
    Shows3(WherePieces(t, s.where, 1), OrderPieces(t, s.order), LimitPieces(s.limit),
           QWhere(t, s.where, 1), QOrder(t, s.order), FlatLimit(s.limit),
           FlatWhere(s.where), FlatOrder(s.order), FlatLimit(s.limit));
  }

  lemma ShowsFrom(t: string)
    requires CleanName(t)
    ensures Shows([Lit(" FROM "), Table("public", t)], " FROM " + QTable(t), " FROM " + t)
  {
    hide Shows;
    ShowsTable(t);
    ShowsLit(" FROM ");
    ShowsConcat([Lit(" FROM ")], [Table("public", t)], " FROM ", QTable(t), " FROM ", t);
    assert [Lit(" FROM ")] + [Table("public", t)] == [Lit(" FROM "), Table("public", t)];
  }

  lemma ShowsSelect(cols: seq<Piece>, from: seq<Piece>, tail: seq<Piece>, q1: string, q2: string, q3: string, q4: string, q5: string,
                    f1: string, f2: string, f3: string, f4: string, f5: string)
    requires Shows(cols, q1, f1) && Shows(from, " FROM " + q2, " FROM " + f2) && Shows(tail, q3 + q4 + q5, f3 + f4 + f5)
    requires StartsLit(from) && from != [] && StartsLit(tail)
    ensures Shows([Lit("SELECT ")] + (cols + (from + tail)),
                  "SELECT " + q1 + " FROM " + q2 + q3 + q4 + q5, "SELECT " + f1 + " FROM " + f2 + f3 + f4 + f5)
  {
    hide Shows;
    ShowsLit("SELECT ");
    ShowsConcat(from, tail, " FROM " + q2, q3 + q4 + q5, " FROM " + f2, f3 + f4 + f5);
    Shows3([Lit("SELECT ")], cols, from + tail, "SELECT ", q1, " FROM " + q2 + (q3 + q4 + q5),
           "SELECT ", f1, " FROM " + f2 + (f3 + f4 + f5));
    SelectAssoc("SELECT " + q1, " FROM ", q2, q3, q4, q5);
    SelectAssoc("SELECT " + f1, " FROM ", f2, f3, f4, f5);
  }

  lemma SelectAssoc(a: string, b: string, c: string, d: string, e: string, f: string)
    ensures a + b + c + d + e + f == a + (b + c + (d + e + f))
  {
    Assoc4(a + b + c, d, e, f);
    Assoc3(d, e, f);
    Assoc3(a, b, c);
    Assoc3(a, b + c, d + e + f);
  }

  lemma ShowsRead(t: string, s: Stmt)
    requires s.Read? && CleanName(t) && CleanStmt(s)
    ensures Shows(StmtPieces(t, s), QualText(t, s), FlatText(t, s))
  {
    hide Shows;
    ShowsProjection(t, s.columns);
    ShowsReadTail(t, s);
    ShowsFrom(t);
    ShowsSelect(ProjectionPieces(t, s.columns), [Lit(" FROM "), Table("public", t)], ReadTail(t, s),
                QProjection(t, s.columns), QTable(t), QWhere(t, s.where, 1), QOrder(t, s.order), FlatLimit(s.limit),
                FlatProjection(s.columns), t, FlatWhere(s.where), FlatOrder(s.order), FlatLimit(s.limit));
  }

  lemma ShowsInto(head: seq<Piece>, fields: seq<Piece>, vals: seq<Piece>,
                  q1: string, q2: string, q3: string, f1: string, f2: string, f3: string)
    requires Shows(head, q1, f1) && Shows(fields, q2, f2) && Shows(vals, q3, f3) && EndsLit(head)
    ensures Shows(head + (fields + ([Lit(") VALUES (")] + (vals + [Lit(")")]))),
                  q1 + q2 + ") VALUES (" + q3 + ")", f1 + f2 + ") VALUES (" + f3 + ")")
  {
    hide Shows;
    ShowsLit(")");
    ShowsLit(") VALUES (");
    Shows3([Lit(") VALUES (")], vals, [Lit(")")], ") VALUES (", q3, ")", ") VALUES (", f3, ")");
    Shows3(head, fields, [Lit(") VALUES (")] + (vals + [Lit(")")]),
           q1, q2, ") VALUES (" + q3 + ")", f1, f2, ") VALUES (" + f3 + ")");
    IntoAssoc(q1, q2, ") VALUES (", q3, ")");
    IntoAssoc(f1, f2, ") VALUES (", f3, ")");
  }

  lemma IntoAssoc(a: string, b: string, c: string, d: string, e: string)
    ensures a + b + c + d + e == a + b + (c + d + e)
  {
    Assoc4(a + b, c, d, e);
    Assoc3(c, d, e);
  }

  lemma ShowsInsert(t: string, s: Stmt)
    requires s.Insert? && CleanName(t) && CleanStmt(s)
    ensures Shows(StmtPieces(t, s), QualText(t, s), FlatText(t, s))
  {
    hide Shows;
    ShowsColumns(t, Fields(s.bindings));
    ShowsValues(s.bindings);
    ShowsTable(t);
    ShowsBetween("INSERT INTO ", Table("public", t), QTable(t), t, " (");
    ShowsInto([Lit("INSERT INTO "), Table("public", t), Lit(" (")],
              Commas(ColumnItems(t, Fields(s.bindings))), Commas(ValueItems(s.bindings)),
              "INSERT INTO " + QTable(t) + " (", Join(QColumns(t, Fields(s.bindings)), ", "), Join(ValueTexts(s.bindings), ", "),
              "INSERT INTO " + t + " (", Join(Fields(s.bindings), ", "), Join(FlatValues(s.bindings), ", "));
  }

  lemma ShowsAssignments(head: seq<Piece>, sets: seq<Piece>, where: seq<Piece>, ret: seq<Piece>,
                         q: string, q1: string, q2: string, q3: string, f: string, f1: string, f2: string, f3: string)
    requires Shows(head, q, f) && Shows(sets, q1, f1) && Shows(where, q2, f2) && Shows(ret, q3, f3)
    requires EndsLit(head) && StartsLit(where) && StartsLit(ret)
    ensures Shows(head + (sets + (where + ret)), q + q1 + q2 + q3, f + f1 + f2 + f3)
  {
    hide Shows;
    ShowsConcat(where, ret, q2, q3, f2, f3);
    Shows3(head, sets, where + ret, q, q1, q2 + q3, f, f1, f2 + f3);
    Assoc3(q + q1, q2, q3);
    Assoc3(f + f1, f2, f3);
  }

  lemma ShowsUpdate(t: string, s: Stmt)
    requires s.Update? && CleanName(t) && CleanStmt(s)
    ensures Shows(StmtPieces(t, s), QualText(t, s), FlatText(t, s))
  {
    hide Shows;
    ShowsTable(t);
    ShowsBetween("UPDATE ", Table("public", t), QTable(t), t, " SET ");
    ShowsSets(t, s.bindings);
    ShowsWhere(t, s.where, ParamCount(s.bindings) + 1);
    ShowsReturning(t, s.returning);
    ShowsAssignments([Lit("UPDATE "), Table("public", t), Lit(" SET ")], Commas(SetItems(t, s.bindings)),
                     WherePieces(t, s.where, ParamCount(s.bindings) + 1), ReturningPieces(t, s.returning),
                     "UPDATE " + QTable(t) + " SET ", Join(QSets(t, s.bindings), ", "),
                     QWhere(t, s.where, ParamCount(s.bindings) + 1), QReturning(t, s.returning),
                     "UPDATE " + t + " SET ", Join(FlatSets(s.bindings), ", "), FlatWhere(s.where), FlatReturning(s.returning));
  }

  lemma ShowsDelete(t: string, s: Stmt)
    requires s.Delete? && CleanName(t) && CleanStmt(s)
    ensures Shows(StmtPieces(t, s), QualText(t, s), FlatText(t, s))
  {
    hide Shows;
    ShowsWhere(t, s.where, 1);
    ShowsTable(t);
    ShowsLit("DELETE FROM ");
    ShowsConcat([Lit("DELETE FROM ")], [Table("public", t)], "DELETE FROM ", QTable(t), "DELETE FROM ", t);
    assert [Lit("DELETE FROM ")] + [Table("public", t)] == [Lit("DELETE FROM "), Table("public", t)];
    ShowsConcat([Lit("DELETE FROM "), Table("public", t)], WherePieces(t, s.where, 1),
                "DELETE FROM " + QTable(t), QWhere(t, s.where, 1), "DELETE FROM " + t, FlatWhere(s.where));
  }

  /**
   Compiled SQL flattens to the statement's unqualified text: for every statement that
   compiles, whichever of the three flatteners runs, alone or the engine's on top of the
   bridge's, the result is the text of the statement without qualifiers and with `?` slots.
   */
  lemma CompiledFlattens(cat: Allowlist, s: Stmt)
    requires CleanAllowlist(cat) && LowerStmt(cat, s).Ok?
    ensures ResolveTable(cat, s.table).Ok? && CleanStmt(s)
    ensures var sql, t := LowerStmt(cat, s).value.sql, ResolveTable(cat, s.table).value.1;
            && CleanName(t)
            && Render(StmtPieces(t, s)) == sql
            && FlattenBridge(sql) == FlatText(t, s)
            && FlattenEngine(sql) == StripTail(FlatText(t, s))
            && FlattenParser(sql) == StripTail(FlatText(t, s))
            && FlattenEngine(FlattenBridge(sql)) == StripTail(FlatText(t, s))
  {
    LoweringEmits(cat, s);
    var t := ResolveTable(cat, s.table).value.1;
    match s {
      case Read(_, _, _, _, _) => ShowsRead(t, s);
      case Insert(_, _) => ShowsInsert(t, s);
      case Update(_, _, _, _) => ShowsUpdate(t, s);
      case Delete(_, _) => ShowsDelete(t, s);
    }
    FlatteningIsHomomorphic(StmtPieces(t, s));
  }
}
