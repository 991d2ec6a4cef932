/**
 The compiler's loops as they run, and placeholder discipline: which slot of a
 compiled statement takes the value of which parameter.
 */
module Compiler {
  import opened Text
  import opened Catalog
  import opened Flatten
  import opened Liq
  import opened Lowering

  // ---------------------------------------------------------------- the loops

  /** One more column: either the prefix grows by it, or the whole list fails with its error. */
  lemma {:induction false} QuotedColumnsNext(cat: Allowlist, raw: string, cs: seq<string>, i: nat)
    requires i < |cs| && QuotedColumns(cat, raw, cs[..i]).Ok?
    ensures var c := QuotedColumn(cat, raw, cs[i]);
            if c.IsFailure() then QuotedColumns(cat, raw, cs) == c.PropagateFailure<seq<string>>()
            else QuotedColumns(cat, raw, cs[..i + 1]) == Ok(QuotedColumns(cat, raw, cs[..i]).value + [c.value])
  {
    hide QuotedColumn;
    PrefixTail(cs, i + 1);
    var c, first := QuotedColumn(cat, raw, cs[i]), QuotedColumn(cat, raw, cs[0]);
    if i == 0 {
      assert cs[1..][..0] == [] && cs[..0] == [];
      assert QuotedColumns(cat, raw, []) == Ok([]);
      if c.Ok? {
        assert [c.value] + [] == [] + [c.value];
      }
    } else {
      PrefixTail(cs, i);
      QuotedColumnsNext(cat, raw, cs[1..], i - 1);
      if c.Ok? {
        Assoc3([first.value], QuotedColumns(cat, raw, cs[1..][..i - 1]).value, [c.value]);
      }
    }
  }

  lemma PrefixTail(cs: seq<string>, i: nat)
    requires 1 <= i <= |cs|
    ensures cs[..i][0] == cs[0] && cs[..i][1..] == cs[1..][..i - 1]
  {
  }

  /** What the loops have built after `i` bindings. */
  predicate Progress(cat: Allowlist, raw: string, bs: seq<Binding>, i: nat, fields: seq<string>, schema: Schema, idx: nat)
    requires i <= |bs|
  {
    && QuotedColumns(cat, raw, Fields(bs)[..i]) == Ok(fields)
    && idx == ParamCount(bs[..i])
    && schema == SchemaOf(ParamNames(bs[..i]))
  }

  lemma ProgressStart(cat: Allowlist, raw: string, bs: seq<Binding>)
    ensures Progress(cat, raw, bs, 0, [], [], 0) && ParamCount(bs[..0]) == 0
  {
    assert bs[..0] == [] && Fields(bs)[..0] == [];
  }

  lemma ProgressStep(cat: Allowlist, raw: string, bs: seq<Binding>, i: nat, fields: seq<string>, schema: Schema, idx: nat)
    requires i < |bs| && Progress(cat, raw, bs, i, fields, schema, idx)
    ensures ParamCount(bs[..i + 1]) == idx + (if bs[i].rhs.ParamRef? then 1 else 0)
    ensures var c := QuotedColumn(cat, raw, bs[i].field);
            if c.IsFailure() then QuotedColumns(cat, raw, Fields(bs)) == c.PropagateFailure<seq<string>>()
            else if bs[i].rhs.ParamRef? then
              var name := bs[i].rhs.name;
              Progress(cat, raw, bs, i + 1, fields + [c.value], Put(schema, name, ParamType(name)), idx + 1)
            else Progress(cat, raw, bs, i + 1, fields + [c.value], schema, idx)
  {
    QuotedColumnsNext(cat, raw, Fields(bs), i);
    assert bs[..i + 1][..i] == bs[..i];
    var names := ParamNames(bs[..i]);
    if bs[i].rhs.ParamRef? {
      assert (names + [bs[i].rhs.name])[..|names|] == names;
    } else {
      assert names + [] == names;
    }
  }

  lemma ProgressDone(cat: Allowlist, raw: string, bs: seq<Binding>, fields: seq<string>, schema: Schema, idx: nat)
    requires Progress(cat, raw, bs, |bs|, fields, schema, idx)
    ensures QuotedColumns(cat, raw, Fields(bs)) == Ok(fields) && idx == ParamCount(bs) == ParamCount(bs[..|bs|]) && schema == SchemaOf(ParamNames(bs))
  {
    assert bs[..|bs|] == bs && Fields(bs)[..|bs|] == Fields(bs);
  }

  /** The insert loop: `fields`, `placeholders`, `schema` and `idx` grow binding by binding. */
  method LowerInsertStmt(cat: Allowlist, s: Stmt) returns (r: Result<Lowered>)
    requires s.Insert?
    ensures r == LowerInsert(cat, s)
  {
    hide Progress, QuotedTable, QuotedColumn, QuotedColumns, Join, ParamType, Put, ParamCount, ParamNames, SchemaOf,
         WhereText, WhereNames, ReturningText, Decimal, HasKey, Keys;
    var table := QuotedTable(cat, s.table);
    if table.IsFailure() {
      return table.PropagateFailure();
    }
    var bs := s.bindings;
    var fields: seq<string>, placeholders: seq<string>, schema: Schema, idx := [], [], [], 0;
    var i := 0;
    ProgressStart(cat, s.table, bs);
    while i < |bs|
      invariant 0 <= i <= |bs|
      invariant Progress(cat, s.table, bs, i, fields, schema, idx) && idx == ParamCount(bs[..i])
      invariant |placeholders| == i && forall j :: 0 <= j < i ==> placeholders[j] == ValueText(bs, j)
    {
      var field := QuotedColumn(cat, s.table, bs[i].field);
      ProgressStep(cat, s.table, bs, i, fields, schema, idx);
      if field.IsFailure() {
        return field.PropagateFailure();
      }
      fields := fields + [field.value];
      if bs[i].rhs.ParamRef? {
        idx := idx + 1;
        placeholders := placeholders + ["$" + Decimal(idx)];
        schema := Put(schema, bs[i].rhs.name, ParamType(bs[i].rhs.name));
      } else {
        placeholders := placeholders + ["%s"];
      }
      i := i + 1;
    }
    ProgressDone(cat, s.table, bs, fields, schema, idx);
    assert placeholders == ValueTexts(bs);
    return Ok(Lowered("INSERT INTO " + table.value + " (" + Join(fields, ", ") + ") VALUES (" + Join(placeholders, ", ") + ")", schema));
  }

  /** The update loop: assignments instead of two lists, then the WHERE takes the next slot. */
  method LowerUpdateStmt(cat: Allowlist, s: Stmt) returns (r: Result<Lowered>)
    requires s.Update?
    ensures r == LowerUpdate(cat, s)
  {
    hide Progress, QuotedTable, QuotedColumn, QuotedColumns, Join, ParamType, Put, ParamCount, ParamNames, SchemaOf,
         WhereText, WhereNames, ReturningText, Decimal, HasKey, Keys;
    var table := QuotedTable(cat, s.table);
    if table.IsFailure() {
      return table.PropagateFailure();
    }
    var bs := s.bindings;
    var sets: seq<string>, schema: Schema, idx := [], [], 0;
    ghost var fields: seq<string> := [];
    var i := 0;
    ProgressStart(cat, s.table, bs);
    while i < |bs|
      invariant 0 <= i <= |bs|
      invariant Progress(cat, s.table, bs, i, fields, schema, idx) && idx == ParamCount(bs[..i])
      invariant |sets| == |fields| == i && forall j :: 0 <= j < i ==> sets[j] == fields[j] + " = " + ValueText(bs, j)
    {
      var field := QuotedColumn(cat, s.table, bs[i].field);
      ProgressStep(cat, s.table, bs, i, fields, schema, idx);
      if field.IsFailure() {
        return field.PropagateFailure();
      }
      fields := fields + [field.value];
      if bs[i].rhs.ParamRef? {
        idx := idx + 1;
        sets := sets + [field.value + " = " + ("$" + Decimal(idx))];
        schema := Put(schema, bs[i].rhs.name, ParamType(bs[i].rhs.name));
      } else {
        sets := sets + [field.value + " = " + "%s"];
      }
      i := i + 1;
    }
    ProgressDone(cat, s.table, bs, fields, schema, idx);
    assert sets == SetTexts(fields, bs);
    r := FinishUpdate(cat, s, table.value, sets, schema, idx);
  }

  method FinishUpdate(cat: Allowlist, s: Stmt, table: string, sets: seq<string>, schema: Schema, idx: nat)
    returns (r: Result<Lowered>)
    requires s.Update? && schema == SchemaOf(ParamNames(s.bindings))
    ensures r ==
            var where := WhereText(cat, s.table, s.where, idx + 1);
            if where.IsFailure() then where.PropagateFailure()
            else
              var ret := ReturningText(cat, s.table, s.returning);
              if ret.IsFailure() then ret.PropagateFailure()
              else Ok(Lowered("UPDATE " + table + " SET " + Join(sets, ", ") + where.value + ret.value,
                              SchemaOf(ParamNames(s.bindings) + WhereNames(s.where))))
  {
    var where := WhereText(cat, s.table, s.where, idx + 1);
    if where.IsFailure() {
      return where.PropagateFailure();
    }
    var d := schema;
    var names := ParamNames(s.bindings);
    if s.where.Some? {
      var name := s.where.value.rhs.name;
      d := Put(d, name, ParamType(name));
      assert (names + [name])[..|names|] == names;
    } else {
      assert names + [] == names;
    }
    var ret := ReturningText(cat, s.table, s.returning);
    if ret.IsFailure() {
      return ret.PropagateFailure();
    }
    return Ok(Lowered("UPDATE " + table + " SET " + Join(sets, ", ") + where.value + ret.value, d));
  }

  /** `_collect_params`: one pass that appends each name not seen before. */
  method CollectParams(s: Stmt) returns (names: seq<string>)
    ensures names == FirstUses(StmtParams(s))
  {
    names := [];
    if s.Insert? || s.Update? {
      var bs := s.bindings;
      var i := 0;
      while i < |bs|
        invariant 0 <= i <= |bs|
        invariant names == FirstUses(ParamNames(bs[..i]))
      {
        ParamNamesNext(bs, i);
        if bs[i].rhs.ParamRef? {
          FirstUsesNext(ParamNames(bs[..i]), bs[i].rhs.name);
          if bs[i].rhs.name !in names {
            names := names + [bs[i].rhs.name];
          }
        }
        i := i + 1;
      }
      assert bs[..i] == bs;
    }
    if !s.Insert? && s.where.Some? && s.where.value.rhs.ParamRef? {
      var before := if s.Update? then ParamNames(s.bindings) else [];
      FirstUsesNext(before, s.where.value.rhs.name);
      assert [] + [s.where.value.rhs.name] == [s.where.value.rhs.name];
      if s.where.value.rhs.name !in names {
        names := names + [s.where.value.rhs.name];
      }
    } else if s.Update? {
      assert ParamNames(s.bindings) + [] == ParamNames(s.bindings);
    }
  }

  lemma ParamNamesNext(bs: seq<Binding>, i: nat)
    requires i < |bs|
    ensures ParamNames(bs[..i + 1]) == if bs[i].rhs.ParamRef? then ParamNames(bs[..i]) + [bs[i].rhs.name] else ParamNames(bs[..i])
  {
    assert bs[..i + 1][..i] == bs[..i];
  }

  lemma FirstUsesNext(names: seq<string>, name: string)
    ensures FirstUses(names + [name]) == if name in FirstUses(names) then FirstUses(names) else FirstUses(names) + [name]
  {
    assert (names + [name])[..|names|] == names;
  }

  // ---------------------------------------------------------------- placeholder discipline

  /** The keys of the schema, in order, are what `_collect_params` returns. */
  lemma {:induction false} SchemaKeysAreFirstUses(names: seq<string>)
    ensures Keys(SchemaOf(names)) == FirstUses(names)
  {
    if names != [] {
      var init, last := names[..|names| - 1], names[|names| - 1];
      SchemaKeysAreFirstUses(init);
    }
  }

  /** Leaving out repetitions changes nothing exactly when there are none; otherwise it gets shorter. */
  lemma {:induction false} FirstUsesOfDistinct(names: seq<string>)
    ensures |FirstUses(names)| <= |names|
    ensures Distinct(names) <==> FirstUses(names) == names
    ensures |FirstUses(names)| == |names| <==> Distinct(names)
  {
    if names != [] {
      var init, last := names[..|names| - 1], names[|names| - 1];
      assert names == init + [last];
      FirstUsesOfDistinct(init);
      if last in init {
        var i :| 0 <= i < |init| && init[i] == last;
        assert names[i] == names[|names| - 1];
      } else if Distinct(init) {
        assert Distinct(names);
      } else {
        var i, j :| 0 <= i < j < |init| && init[i] == init[j];
        assert names[i] == names[j];
      }
    }
  }

  /** `_ordered_params`: the values in schema-key order. */
  function OrderedParams(d: Schema, env: map<string, string>): (r: seq<string>)
    requires forall k :: k in Keys(d) ==> k in env
    ensures |r| == |d| && forall i :: 0 <= i < |d| ==> r[i] == env[d[i].0]
  {
    assert forall i :: 0 <= i < |d| ==> Keys(d)[i] == d[i].0;
    seq(|d|, i requires 0 <= i < |d| => env[d[i].0])
  }

  function SlotIndices(ps: seq<Piece>): seq<nat> {
    if ps == [] then []
    else (if ps[0].Slot? then [ps[0].index] else []) + SlotIndices(ps[1..])
  }

  function Range(a: nat, b: nat): (r: seq<nat>)
    requires a <= b
    ensures |r| == b - a && forall i :: 0 <= i < b - a ==> r[i] == a + i
  {
    seq(b - a, i requires 0 <= i < b - a => a + i)
  }

  lemma RangeStep(a: nat, b: nat)
    requires a < b
    ensures Range(a, b) == [a] + Range(a + 1, b)
  {
  }

  lemma {:induction false} SlotIndicesConcat(a: seq<Piece>, b: seq<Piece>)
    ensures SlotIndices(a + b) == SlotIndices(a) + SlotIndices(b)
  {
    if a == [] {
      assert a + b == b;
    } else {
      assert (a + b)[0] == a[0] && (a + b)[1..] == a[1..] + b;
      SlotIndicesConcat(a[1..], b);
    }
  }

  lemma {:induction false} NoSlots(ps: seq<Piece>)
    requires forall i :: 0 <= i < |ps| ==> !ps[i].Slot?
    ensures SlotIndices(ps) == []
  {
    if ps != [] {
      NoSlots(ps[1..]);
    }
  }

  /** Lists of slot numbers put one after the other. */
  function Chain(slots: seq<seq<nat>>): seq<nat> {
    if slots == [] then [] else slots[0] + Chain(slots[1..])
  }

  function SlotsOfEach(items: seq<seq<Piece>>): (r: seq<seq<nat>>)
    ensures |r| == |items| && forall i :: 0 <= i < |items| ==> r[i] == SlotIndices(items[i])
  {
    seq(|items|, i requires 0 <= i < |items| => SlotIndices(items[i]))
  }

  lemma {:induction false} SlotsOfCommas(items: seq<seq<Piece>>)
    ensures SlotIndices(Commas(items)) == Chain(SlotsOfEach(items))
  {
    if items != [] {
      SlotsOfCommas(items[1..]);
      assert SlotsOfEach(items)[1..] == SlotsOfEach(items[1..]);
      if |items| > 1 {
        SlotIndicesConcat(items[0], [Lit(", ")] + Commas(items[1..]));
        SlotIndicesConcat([Lit(", ")], Commas(items[1..]));
        NoSlots([Lit(", ")]);
      }
    }
  }

  lemma {:induction false} ParamCountIsLength(bs: seq<Binding>)
    ensures |ParamNames(bs)| == ParamCount(bs)
  {
    if bs != [] {
      ParamCountIsLength(bs[..|bs| - 1]);
    }
  }

  lemma {:induction false} ParamCountMonotone(bs: seq<Binding>, j: nat)
    requires j <= |bs|
    ensures ParamCount(bs[..j]) <= ParamCount(bs)
    decreases |bs|
  {
    if j < |bs| {
      assert bs[..|bs| - 1][..j] == bs[..j];
      ParamCountMonotone(bs[..|bs| - 1], j);
    } else {
      assert bs[..j] == bs;
    }
  }

  /** The slot numbers of binding `i`: the next number for a parameter, none for a constant. */
  function BindingSlot(bs: seq<Binding>, i: nat): seq<nat>
    requires i < |bs|
  {
    if bs[i].rhs.ParamRef? then [ParamCount(bs[..i]) + 1] else []
  }

  /** The slots of the bindings from `j` on continue the count where the first `j` left it. */
  lemma {:induction false} BindingSlots(bs: seq<Binding>, slots: seq<seq<nat>>, j: nat)
    requires j <= |bs| == |slots|
    requires forall i :: 0 <= i < |bs| ==> slots[i] == BindingSlot(bs, i)
    ensures ParamCount(bs[..j]) <= ParamCount(bs)
    ensures Chain(slots[j..]) == Range(ParamCount(bs[..j]) + 1, ParamCount(bs) + 1)
    decreases |bs| - j
  {
    ParamCountMonotone(bs, j);
    if j == |bs| {
      assert bs[..j] == bs;
    } else {
      BindingSlots(bs, slots, j + 1);
      assert bs[..j + 1][..j] == bs[..j];
      assert slots[j..][0] == slots[j] && slots[j..][1..] == slots[j + 1..];
      if bs[j].rhs.ParamRef? {
        RangeStep(ParamCount(bs[..j]) + 1, ParamCount(bs) + 1);
      } else {
        assert [] + Chain(slots[j + 1..]) == Chain(slots[j + 1..]);
      }
    }
  }

  /** Groups whose slots are those of the bindings carry the slots 1 to the parameter count. */
  lemma CountedSlots(bs: seq<Binding>, items: seq<seq<Piece>>)
    requires |bs| == |items|
    requires forall i :: 0 <= i < |bs| ==> SlotIndices(items[i]) == BindingSlot(bs, i)
    ensures SlotIndices(Commas(items)) == Range(1, ParamCount(bs) + 1)
  {
    hide Commas, SlotIndices, Chain;
    var slots := SlotsOfEach(items);
    SlotsOfCommas(items);
    BindingSlots(bs, slots, 0);
    assert slots[0..] == slots;
    assert ParamCount(bs[..0]) == 0;
  }

  lemma NoColumnSlots(t: string, cs: seq<string>)
    ensures SlotIndices(Commas(ColumnItems(t, cs))) == []
  {
    var items := ColumnItems(t, cs);
    forall i | 0 <= i < |items|
      ensures SlotIndices(items[i]) == []
    {
      NoSlots(items[i]);
    }
    SlotsOfCommas(items);
    ChainOfNone(SlotsOfEach(items));
  }

  lemma {:induction false} ChainOfNone(slots: seq<seq<nat>>)
    requires forall i :: 0 <= i < |slots| ==> slots[i] == []
    ensures Chain(slots) == []
  {
    if slots != [] {
      ChainOfNone(slots[1..]);
    }
  }

  lemma WhereSlots(t: string, w: Option<Predicate>, index: nat)
    requires CleanWhere(w)
    ensures SlotIndices(WherePieces(t, w, index)) == if w.Some? then [index] else []
    ensures |WhereNames(w)| == if w.Some? then 1 else 0
  {
    if w.Some? {
      var a := [Lit(" WHERE "), Column("public", t, w.value.column), Lit(" = ")];
      assert WherePieces(t, w, index) == a + [Slot(index)];
      SlotIndicesConcat(a, [Slot(index)]);
      NoSlots(a);
    }
  }

  lemma Slots3(a: seq<Piece>, b: seq<Piece>, c: seq<Piece>)
    ensures SlotIndices(a + (b + c)) == SlotIndices(a) + SlotIndices(b) + SlotIndices(c)
  {
    SlotIndicesConcat(a, b + c);
    SlotIndicesConcat(b, c);
    Assoc3(SlotIndices(a), SlotIndices(b), SlotIndices(c));
  }

  lemma InsertSlots(t: string, s: Stmt)
    requires s.Insert?
    ensures SlotIndices(StmtPieces(t, s)) == Range(1, |StmtParams(s)| + 1)
  {
    var bs := s.bindings;
    forall i | 0 <= i < |bs|
      ensures SlotIndices(ValueItems(bs)[i]) == BindingSlot(bs, i)
    {
    }
    CountedSlots(bs, ValueItems(bs));
    ParamCountIsLength(bs);
    NoColumnSlots(t, Fields(bs));
    ValuesSlots([Lit("INSERT INTO "), Table("public", t), Lit(" (")], Commas(ColumnItems(t, Fields(bs))), Commas(ValueItems(bs)));
  }

  lemma ValuesSlots(head: seq<Piece>, fields: seq<Piece>, vals: seq<Piece>)
    requires (forall i :: 0 <= i < |head| ==> !head[i].Slot?) && SlotIndices(fields) == []
    ensures SlotIndices(head + (fields + ([Lit(") VALUES (")] + (vals + [Lit(")")])))) == SlotIndices(vals)
  {
    NoSlots(head);
    Slots3(head, fields, [Lit(") VALUES (")] + (vals + [Lit(")")]));
    Slots3([Lit(") VALUES (")], vals, [Lit(")")]);
    NoSlots([Lit(") VALUES (")]);
    NoSlots([Lit(")")]);
  }

  lemma SetSlots(t: string, bs: seq<Binding>, i: nat)
    requires i < |bs|
    ensures SlotIndices(SetItems(t, bs)[i]) == BindingSlot(bs, i)
  {
    var a := [Column("public", t, bs[i].field), Lit(" = ")];
    assert SetItems(t, bs)[i] == a + [ValuePiece(bs, i)];
    SlotIndicesConcat(a, [ValuePiece(bs, i)]);
    NoSlots(a);
  }

  lemma UpdateSlots(t: string, s: Stmt)
    requires s.Update? && CleanWhere(s.where)
    ensures SlotIndices(StmtPieces(t, s)) == Range(1, |StmtParams(s)| + 1)
  {
    hide Commas, SlotIndices, ParamCount, ParamNames;
    var bs := s.bindings;
    forall i | 0 <= i < |bs|
      ensures SlotIndices(SetItems(t, bs)[i]) == BindingSlot(bs, i)
    {
      SetSlots(t, bs, i);
    }
    CountedSlots(bs, SetItems(t, bs));
    ParamCountIsLength(bs);
    WhereSlots(t, s.where, ParamCount(bs) + 1);
    ReturningHasNoSlots(t, s.returning);
    AssignmentSlots([Lit("UPDATE "), Table("public", t), Lit(" SET ")], Commas(SetItems(t, bs)),
                    WherePieces(t, s.where, ParamCount(bs) + 1), ReturningPieces(t, s.returning));
    if s.where.Some? {
      assert Range(1, ParamCount(bs) + 1) + [ParamCount(bs) + 1] == Range(1, ParamCount(bs) + 2);
    } else {
      assert Range(1, ParamCount(bs) + 1) + [] == Range(1, ParamCount(bs) + 1);
    }
  }

  lemma AssignmentSlots(head: seq<Piece>, sets: seq<Piece>, where: seq<Piece>, ret: seq<Piece>)
    requires (forall i :: 0 <= i < |head| ==> !head[i].Slot?) && SlotIndices(ret) == []
    ensures SlotIndices(head + (sets + (where + ret))) == SlotIndices(sets) + SlotIndices(where)
  {
    NoSlots(head);
    SlotIndicesConcat(where, ret);
    Slots3(head, sets, where + ret);
  }

  lemma ReturningHasNoSlots(t: string, r: Option<seq<string>>)
    ensures SlotIndices(ReturningPieces(t, r)) == []
  {
    if r.Some? && r.value != [] {
      SlotIndicesConcat([Lit(" RETURNING ")], Commas(ColumnItems(t, r.value)));
      NoSlots([Lit(" RETURNING ")]);
      NoColumnSlots(t, r.value);
    }
  }

  lemma ProjectionHasNoSlots(t: string, columns: Option<seq<string>>)
    ensures SlotIndices(ProjectionPieces(t, columns)) == []
  {
    if columns.Some? && columns.value != [] {
      NoColumnSlots(t, columns.value);
    } else {
      NoSlots(ProjectionPieces(t, columns));
    }
  }

  lemma ReadTailSlots(t: string, s: Stmt)
    requires s.Read? && CleanWhere(s.where)
    ensures SlotIndices(ReadTail(t, s)) == Range(1, |StmtParams(s)| + 1)
  {
    WhereSlots(t, s.where, 1);
    Slots3(WherePieces(t, s.where, 1), OrderPieces(t, s.order), LimitPieces(s.limit));
    NoSlots(OrderPieces(t, s.order));
    NoSlots(LimitPieces(s.limit));
  }

  lemma ReadSlots(t: string, s: Stmt)
    requires s.Read? && CleanWhere(s.where)
    ensures SlotIndices(StmtPieces(t, s)) == Range(1, |StmtParams(s)| + 1)
  {
    ProjectionHasNoSlots(t, s.columns);
    ReadTailSlots(t, s);
    SelectSlots(ProjectionPieces(t, s.columns), [Lit(" FROM "), Table("public", t)], ReadTail(t, s));
  }

  lemma SelectSlots(cols: seq<Piece>, from: seq<Piece>, tail: seq<Piece>)
    requires (forall i :: 0 <= i < |from| ==> !from[i].Slot?) && SlotIndices(cols) == []
    ensures SlotIndices([Lit("SELECT ")] + (cols + (from + tail))) == SlotIndices(tail)
  {
    NoSlots([Lit("SELECT ")]);
    NoSlots(from);
    SlotIndicesConcat(from, tail);
    Slots3([Lit("SELECT ")], cols, from + tail);
  }

  lemma DeleteSlots(t: string, s: Stmt)
    requires s.Delete? && CleanWhere(s.where)
    ensures SlotIndices(StmtPieces(t, s)) == Range(1, |StmtParams(s)| + 1)
  {
    WhereSlots(t, s.where, 1);
    SlotIndicesConcat([Lit("DELETE FROM "), Table("public", t)], WherePieces(t, s.where, 1));
    NoSlots([Lit("DELETE FROM "), Table("public", t)]);
  }

  /** The slots of a statement, read left to right, are `$1` to `$k` for its `k` parameter uses. */
  lemma SlotsCountUp(t: string, s: Stmt)
    requires CleanStmt(s)
    ensures SlotIndices(StmtPieces(t, s)) == Range(1, |StmtParams(s)| + 1)
  {
    match s {
      case Read(_, _, _, _, _) => ReadSlots(t, s);
      case Insert(_, _) => InsertSlots(t, s);
      case Update(_, _, _, _) => UpdateSlots(t, s);
      case Delete(_, _) => DeleteSlots(t, s);
    }
  }

  /** With no name used twice, the ordered parameters are the values of the uses, in order. */
  lemma OrderedParamsOfDistinct(names: seq<string>, env: map<string, string>)
    requires Distinct(names) && forall k :: k in names ==> k in env
    ensures Keys(SchemaOf(names)) == names
    ensures forall k :: k in Keys(SchemaOf(names)) ==> k in env
    ensures OrderedParams(SchemaOf(names), env) == seq(|names|, i requires 0 <= i < |names| => env[names[i]])
  {
    hide SchemaOf, FirstUses;
    SchemaKeysAreFirstUses(names);
    FirstUsesOfDistinct(names);
    var d := SchemaOf(names);
    assert forall i :: 0 <= i < |names| ==> d[i].0 == Keys(d)[i] == names[i];
  }

  lemma LoweredSchema(cat: Allowlist, s: Stmt)
    requires LowerStmt(cat, s).Ok?
    ensures LowerStmt(cat, s).value.schema == SchemaOf(StmtParams(s))
  {
    hide SchemaOf, ParamNames, WhereNames, QuotedTable, QuotedColumns, WhereText, OrderText, ProjectionText, ReturningText;
  }

  /**
   Placeholder discipline. The slots of whatever compiles, read left to right, are
   `$1` to `$k` for its `k` parameter uses, and the schema keys are those uses without
   repetitions. There is one value for every slot exactly when no name is used twice;
   `OrderedParamsOfDistinct` says that the values are then the right ones.
   */
  lemma PlaceholderDiscipline(cat: Allowlist, s: Stmt)
    requires CleanAllowlist(cat) && LowerStmt(cat, s).Ok?
    ensures ResolveTable(cat, s.table).Ok?
    ensures SlotIndices(StmtPieces(ResolveTable(cat, s.table).value.1, s)) == Range(1, |StmtParams(s)| + 1)
    ensures LowerStmt(cat, s).value.schema == SchemaOf(StmtParams(s))
    ensures Keys(LowerStmt(cat, s).value.schema) == FirstUses(StmtParams(s))
    ensures |LowerStmt(cat, s).value.schema| == |StmtParams(s)| <==> Distinct(StmtParams(s))
  {
    hide StmtPieces, QualText;
    LoweringEmits(cat, s);
    LoweredSchema(cat, s);
    SlotsCountUp(ResolveTable(cat, s.table).value.1, s);
    SchemaKeysAreFirstUses(StmtParams(s));
    FirstUsesOfDistinct(StmtParams(s));
  }
}
