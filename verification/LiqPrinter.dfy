/**
 liq in print: every canonical statement parses back to itself, the clauses of a read
 may stand in any order, and what the parser takes beyond that.
 */
module LiqPrinter {
  import opened Text
  import opened Liq
  import opened LiqParser

  // ---------------------------------------------------------------- printing

  function RhsText(r: Rhs): string {
    match r
    case ParamRef(n) => "$" + n
    case ConstText(x) => "'" + x + "'"
    case ConstInt(n) => Decimal(n)
  }

  /** Columns with a comma behind all but the last. */
  function ColumnTokens(cs: seq<string>): (r: seq<string>)
    ensures |r| == |cs|
    ensures forall i :: 0 <= i < |cs| ==> r[i] == if i < |cs| - 1 then cs[i] + "," else cs[i]
  {
    seq(|cs|, i requires 0 <= i < |cs| => if i < |cs| - 1 then cs[i] + "," else cs[i])
  }

  function WhereTokens(p: Predicate): (r: seq<string>)
    ensures |r| == 4 && r[0] == "where"
  {
    ["where", p.column, "=", RhsText(p.rhs)]
  }

  /** A clause of a read, as it can be written. */
  datatype Clause =
    | Projection(columns: seq<string>)
    | Where(p: Predicate)
    | OrderBy(column: string, direction: Option<bool>)
    | LimitTo(n: nat)

  function ClauseTokens(c: Clause): seq<string> {
    match c
    case Projection(cs) => ["{"] + (ColumnTokens(cs) + ["}"])
    case Where(p) => WhereTokens(p)
    case OrderBy(column, d) => if d.None? then ["order", column] else ["order", column, if d.value then "desc" else "asc"]
    case LimitTo(n) => ["limit", Decimal(n)]
  }

  function ClausesTokens(cs: seq<Clause>): seq<string> {
    if cs == [] then [] else ClauseTokens(cs[0]) + ClausesTokens(cs[1..])
  }

  /** The clauses a read is printed with. */
  function CanonicalClauses(s: Stmt): seq<Clause>
    requires s.Read?
  {
    (if s.columns.Some? then [Projection(s.columns.value)] else []) +
    ((if s.where.Some? then [Where(s.where.value)] else []) +
     ((if s.order.Some? then [OrderBy(s.order.value.column, Some(s.order.value.desc))] else []) +
      (if s.limit.Some? then [LimitTo(s.limit.value)] else [])))
  }

  function BindingTokens(bs: seq<Binding>): seq<string> {
    if bs == [] then []
    else if |bs| == 1 then [bs[0].field + ":", RhsText(bs[0].rhs)]
    else [bs[0].field + ":", RhsText(bs[0].rhs) + ","] + BindingTokens(bs[1..])
  }

  function SetTokens(bs: seq<Binding>): seq<string> {
    if bs == [] then [] else [bs[0].field, "=", RhsText(bs[0].rhs)] + SetTokens(bs[1..])
  }

  function MaybeWhere(w: Option<Predicate>): seq<string> {
    if w.None? then [] else WhereTokens(w.value)
  }

  function StmtTokens(s: Stmt): seq<string> {
    match s
    case Read(t, _, _, _, _) => ["read", t] + ClausesTokens(CanonicalClauses(s))
    case Insert(t, bs) => ["insert", t, "{"] + (BindingTokens(bs) + ["}"])
    case Update(t, bs, w, r) =>
      ["update", t, "set"] + (SetTokens(bs) + (MaybeWhere(w) + ReturningTokens(r)))
    case Delete(t, w) => ["delete", "from", t] + MaybeWhere(w)
  }

  function Print(s: Stmt): string {
    Join(StmtTokens(s), " ")
  }

  // ---------------------------------------------------------------- what can be printed

  predicate NoSpace(s: string) {
    forall i :: 0 <= i < |s| ==> !IsPySpace(s[i])
  }

  /** A token: not empty and free of white space. */
  predicate Token(s: string) {
    s != "" && NoSpace(s)
  }

  predicate Tokens(ts: seq<string>) {
    forall i :: 0 <= i < |ts| ==> Token(ts[i])
  }

  /** A name for the parser's purposes: a token without a comma. */
  predicate PlainName(s: string) {
    Token(s) && ',' !in s
  }

  predicate PlainRhs(r: Rhs) {
    match r
    case ParamRef(n) => IsName(n)
    case ConstText(x) => NoSpace(x) && ',' !in x
    case ConstInt(_) => true
  }

  predicate PlainPredicate(p: Predicate) {
    PlainName(p.column) && PlainRhs(p.rhs)
  }

  predicate PlainColumns(cs: seq<string>) {
    forall i :: 0 <= i < |cs| ==> PlainName(cs[i]) && cs[i] != "}"
  }

  predicate PlainClause(c: Clause) {
    match c
    case Projection(cs) => PlainColumns(cs)
    case Where(p) => PlainPredicate(p)
    case OrderBy(column, _) => PlainName(column)
    case LimitTo(_) => true
  }

  predicate PlainClauses(cs: seq<Clause>) {
    forall i :: 0 <= i < |cs| ==> PlainClause(cs[i])
  }

  /** Insert fields are cut at a colon; set columns must not be keywords. */
  predicate PlainField(f: string) {
    PlainName(f) && ':' !in f
  }

  predicate PlainSet(f: string) {
    PlainName(f) && f != "where" && f != "returning"
  }

  predicate Canonical(s: Stmt) {
    match s
    case Read(t, _, _, _, _) => IsIdent(t) && PlainClauses(CanonicalClauses(s))
    case Insert(t, bs) => IsIdent(t) && forall i :: 0 <= i < |bs| ==> PlainField(bs[i].field) && PlainRhs(bs[i].rhs)
    case Update(t, bs, w, r) =>
      && IsIdent(t) && bs != [] && (forall i :: 0 <= i < |bs| ==> PlainSet(bs[i].field) && PlainRhs(bs[i].rhs))
      && (w.Some? ==> PlainPredicate(w.value)) && (r.Some? ==> PlainColumns(r.value))
    case Delete(t, w) => IsIdent(t) && (w.Some? ==> PlainPredicate(w.value))
  }

  // ---------------------------------------------------------------- tokens back

  lemma {:induction false} SplitToken(x: string, t: string, cur: string)
    requires NoSpace(x)
    ensures SplitWs(x + t, cur) == SplitWs(t, cur + x)
  {
    if x == "" {
      assert x + t == t && cur + x == cur;
    } else {
      assert (x + t)[0] == x[0] && (x + t)[1..] == x[1..] + t;
      SplitToken(x[1..], t, cur + [x[0]]);
      assert cur + [x[0]] + x[1..] == cur + x;
    }
  }

  lemma {:induction false} SplitOfJoin(ts: seq<string>)
    requires Tokens(ts)
    ensures SplitWs(Join(ts, " "), "") == ts
  {
    hide IsPySpace;
    if ts != [] {
      var x := ts[0];
      assert "" + x == x;
      if |ts| == 1 {
        assert x + "" == x;
        SplitToken(x, "", "");
      } else {
        var t := Join(ts[1..], " ");
        Assoc3(x, " ", t);
        SplitToken(x, " " + t, "");
        assert (" " + t)[0] == ' ' && (" " + t)[1..] == t;
        SpaceIsSpace();
        SplitOfJoin(ts[1..]);
      }
    }
  }

  lemma SpaceIsSpace()
    ensures IsPySpace(' ')
  {
  }

  lemma TokensConcat(a: seq<string>, b: seq<string>)
    requires Tokens(a) && Tokens(b)
    ensures Tokens(a + b)
  {
    hide Token;
  }

  lemma NameIsToken(s: string)
    requires IsName(s)
    ensures Token(s)
  {
  }

  lemma IdentIsToken(s: string)
    requires IsIdent(s)
    ensures Token(s)
  {
    if !IsName(s) {
      var i :| 0 <= i < |s| && s[i] == '.' && IsName(s[..i]) && IsName(s[i + 1..]);
      NameIsToken(s[..i]);
      NameIsToken(s[i + 1..]);
      assert forall j :: 0 <= j < i ==> s[j] == s[..i][j];
      assert forall j :: i < j < |s| ==> s[j] == s[i + 1..][j - i - 1];
    }
  }

  lemma DecimalIsToken(n: nat)
    ensures Token(Decimal(n)) && IsNumeral(Decimal(n)) && ReadDecimal(Decimal(n)) == n
    ensures ',' !in Decimal(n)
  {
    hide Decimal;
    ReadDecimalPrints(n);
  }

  lemma RhsIsToken(r: Rhs)
    requires PlainRhs(r)
    ensures Token(RhsText(r)) && ',' !in RhsText(r)
  {
    hide Decimal;
    match r {
      case ParamRef(n) => NameIsToken(n);
      case ConstText(x) =>
      case ConstInt(n) => DecimalIsToken(n);
    }
  }

  /** A right-hand side is read back. */
  lemma RhsRoundTrip(r: Rhs)
    requires PlainRhs(r)
    ensures ParseRhs(RhsText(r)) == Some(r)
  {
    hide Decimal, ReadDecimal;
    var t := RhsText(r);
    match r {
      case ParamRef(n) =>
        assert t[..1] == "$" && t[1..] == n;
      case ConstText(x) =>
        assert t[0] == '\'' && t[|t| - 1] == '\'' && t[1..|t| - 1] == x && t[..1][0] == '\'';
      case ConstInt(n) =>
        DecimalIsToken(n);
        assert t[..1][0] == t[0] && IsDigit(t[0]);
    }
  }

  lemma DropOneComma(c: string)
    requires ',' !in c
    ensures DropCommas(c) == c && DropCommas(c + ",") == c
  {
    assert (c + ",")[..|c|] == c;
  }

  lemma ColumnsRoundTrip(cs: seq<string>)
    requires PlainColumns(cs)
    ensures Tokens(ColumnTokens(cs)) && DropCommasAll(ColumnTokens(cs)) == cs
    ensures forall i :: 0 <= i < |cs| ==> ColumnTokens(cs)[i] != "}"
  {
    hide DropCommas;
    forall i | 0 <= i < |cs|
      ensures Token(ColumnTokens(cs)[i]) && DropCommas(ColumnTokens(cs)[i]) == cs[i] && ColumnTokens(cs)[i] != "}"
    {
      DropOneComma(cs[i]);
      if i < |cs| - 1 {
        assert (cs[i] + ",")[|cs[i]|] == ',' != '}';
      }
    }
  }

  lemma {:induction false} UntilBraceOf(ts: seq<string>, t: seq<string>)
    requires forall i :: 0 <= i < |ts| ==> ts[i] != "}"
    ensures UntilBrace(ts + (["}"] + t)) == |ts|
  {
    var all := ts + (["}"] + t);
    if ts == [] {
      assert all[0] == "}";
    } else {
      assert all[0] == ts[0] && all[1..] == ts[1..] + (["}"] + t);
      UntilBraceOf(ts[1..], t);
    }
  }

  lemma PredicateRoundTrip(p: Predicate, t: seq<string>)
    requires PlainPredicate(p)
    ensures Tokens(WhereTokens(p))
    ensures (WhereTokens(p) + t)[0] == "where" && (WhereTokens(p) + t)[4..] == t
    ensures ParsePredicate((WhereTokens(p) + t)[1..]) == Some(p)
  {
    hide ParseRhs, RhsText;
    RhsIsToken(p.rhs);
    RhsRoundTrip(p.rhs);
    var ts := (WhereTokens(p) + t)[1..];
    assert ts[0] == p.column && ts[1] == "=" && ts[2] == RhsText(p.rhs);
  }

  // ---------------------------------------------------------------- clauses

  /** What a clause does to a read: the last of a kind wins, a direction stays until another is given. */
  function ApplyClause(s: Stmt, c: Clause): (r: Stmt)
    requires s.Read?
    ensures r.Read? && r.table == s.table
  {
    match c
    case Projection(cs) => Read(s.table, Some(cs), s.where, s.order, s.limit)
    case Where(p) => Read(s.table, s.columns, Some(p), s.order, s.limit)
    case OrderBy(column, d) =>
      var desc := if d.Some? then d.value else s.order.Some? && s.order.value.desc;
      Read(s.table, s.columns, s.where, Some(Ordering(column, desc)), s.limit)
    case LimitTo(n) => Read(s.table, s.columns, s.where, s.order, Some(n))
  }

  function ApplyAll(s: Stmt, cs: seq<Clause>): (r: Stmt)
    requires s.Read?
    ensures r.Read? && r.table == s.table
    decreases |cs|
  {
    if cs == [] then s else ApplyAll(ApplyClause(s, cs[0]), cs[1..])
  }

  lemma ClauseWordsAreTokens()
    ensures Token("{") && Token("}") && Token("order") && Token("asc") && Token("desc") && Token("limit")
  {
  }

  lemma ClauseTokensAreTokens(c: Clause)
    requires PlainClause(c)
    ensures Tokens(ClauseTokens(c)) && ClauseTokens(c) != []
  {
    hide Decimal, ColumnTokens, RhsText, NoSpace;
    ClauseWordsAreTokens();
    match c {
      case Projection(cs) => ColumnsRoundTrip(cs);
      case Where(p) => PredicateRoundTrip(p, []);
      case OrderBy(_, _) =>
      case LimitTo(n) => DecimalIsToken(n);
    }
  }

  /** No clause starts with a direction, so a direction is never taken from the next clause. */
  lemma ClauseHead(c: Clause)
    ensures ClauseTokens(c)[0] != "asc" && ClauseTokens(c)[0] != "desc"
  {
    hide Decimal, ColumnTokens, RhsText;
  }

  lemma ProjectionIsParsed(cs: seq<string>, t: seq<string>, s: Stmt)
    requires s.Read? && PlainColumns(cs)
    ensures Clauses(ClauseTokens(Projection(cs)) + t, s) == Clauses(t, ApplyClause(s, Projection(cs)))
  {
    hide ColumnTokens, DropCommasAll, UntilBrace, ParsePredicate, IsNumeral, WithOrder, WithWhere, PlainColumns, Tokens;
    var cols := ColumnTokens(cs);
    var ts := ClauseTokens(Projection(cs)) + t;
    ColumnsRoundTrip(cs);
    UntilBraceOf(cols, t);
    assert ts[0] == "{" && ts[1..] == cols + (["}"] + t);
    assert ts[1..|cols| + 1] == cols && ts[|cols| + 2..] == t;
  }

  lemma OrderIsParsed(column: string, d: Option<bool>, t: seq<string>, s: Stmt)
    requires s.Read? && (t == [] || (t[0] != "asc" && t[0] != "desc"))
    ensures Clauses(ClauseTokens(OrderBy(column, d)) + t, s) == Clauses(t, ApplyClause(s, OrderBy(column, d)))
  {
    var ts := ClauseTokens(OrderBy(column, d)) + t;
    assert ts[0] == "order" && ts[1] == column;
    if d.None? {
      assert ts[2..] == t;
      assert |ts| >= 3 ==> ts[2] == t[0];
    } else {
      assert ts[3..] == t;
    }
  }

  lemma ClauseIsParsed(c: Clause, t: seq<string>, s: Stmt)
    requires s.Read? && PlainClause(c) && (t == [] || (t[0] != "asc" && t[0] != "desc"))
    ensures Clauses(ClauseTokens(c) + t, s) == Clauses(t, ApplyClause(s, c))
  {
    hide ParsePredicate, ColumnTokens;
    match c {
      case Projection(cs) => ProjectionIsParsed(cs, t, s);
      case Where(p) => PredicateRoundTrip(p, t);
      case OrderBy(column, d) => OrderIsParsed(column, d, t, s);
      case LimitTo(n) =>
        DecimalIsToken(n);
        var ts := ClauseTokens(c) + t;
        assert ts[0] == "limit" && ts[1] == Decimal(n) && ts[2..] == t;
    }
  }

  /** Any list of clauses is read as their effects one after the other. */
  lemma {:induction false} ClausesAreParsed(cs: seq<Clause>, s: Stmt)
    requires s.Read? && PlainClauses(cs)
    ensures Clauses(ClausesTokens(cs), s) == Some(ApplyAll(s, cs))
    ensures Tokens(ClausesTokens(cs))
    decreases |cs|
  {
    hide ClauseTokens, ApplyClause, PlainClause, Clauses;
    if cs == [] {
      NoClauses(s);
    } else {
      var t := ClausesTokens(cs[1..]);
      ClauseTokensAreTokens(cs[0]);
      if |cs| > 1 {
        ClauseTokensAreTokens(cs[1]);
        ClauseHead(cs[1]);
        assert t[0] == ClauseTokens(cs[1])[0];
      }
      ClauseIsParsed(cs[0], t, s);
      ClausesAreParsed(cs[1..], ApplyClause(s, cs[0]));
      TokensConcat(ClauseTokens(cs[0]), t);
    }
  }

  /** The text of a read with the given clauses. */
  function ReadText(table: string, cs: seq<Clause>): string {
    Join(["read", table] + ClausesTokens(cs), " ")
  }

  lemma ParseOfTokens(ts: seq<string>)
    requires Tokens(ts)
    ensures Parse(Join(ts, " ")) == if Forbidden(Join(ts, " ")) then None else ParseTokens(ts)
  {
    hide ParseTokens, Forbidden;
    SplitOfJoin(ts);
  }

  /** A read with any list of clauses, repeated or not, in any order. */
  lemma ReadTextIsParsed(table: string, cs: seq<Clause>)
    requires IsIdent(table) && PlainClauses(cs)
    ensures Parse(ReadText(table, cs)) ==
            if Forbidden(ReadText(table, cs)) then None else Some(ApplyAll(EmptyRead(table), cs))
  {
    hide IsIdent, Clauses, PlainClause, Forbidden, Parse;
    var ts := ["read", table] + ClausesTokens(cs);
    IdentIsToken(table);
    ClausesAreParsed(cs, EmptyRead(table));
    TokensConcat(["read", table], ClausesTokens(cs));
    ParseOfTokens(ts);
    assert ts[0] == "read" && ts[1] == table && ts[2..] == ClausesTokens(cs);
    assert Lower("read") == "read";
  }

  // ---------------------------------------------------------------- clause order

  function Kind(c: Clause): nat {
    match c
    case Projection(_) => 0
    case Where(_) => 1
    case OrderBy(_, _) => 2
    case LimitTo(_) => 3
  }

  predicate OneOfEachKind(cs: seq<Clause>) {
    forall i, j :: 0 <= i < j < |cs| ==> Kind(cs[i]) != Kind(cs[j])
  }

  /** The statement says what the clause says. */
  predicate Says(s: Stmt, c: Clause)
    requires s.Read?
  {
    match c
    case Projection(cs) => s.columns == Some(cs)
    case Where(p) => s.where == Some(p)
    case OrderBy(column, d) => s.order == Some(Ordering(column, d == Some(true)))
    case LimitTo(n) => s.limit == Some(n)
  }

  predicate SameField(s: Stmt, t: Stmt, kind: nat)
    requires s.Read? && t.Read?
  {
    if kind == 0 then s.columns == t.columns
    else if kind == 1 then s.where == t.where
    else if kind == 2 then s.order == t.order
    else s.limit == t.limit
  }

  lemma {:induction false} OtherKindsKeep(s: Stmt, cs: seq<Clause>, kind: nat)
    requires s.Read? && kind < 4 && forall i :: 0 <= i < |cs| ==> Kind(cs[i]) != kind
    ensures SameField(ApplyAll(s, cs), s, kind)
    decreases |cs|
  {
    if cs != [] {
      OtherKindsKeep(ApplyClause(s, cs[0]), cs[1..], kind);
    }
  }

  lemma {:induction false} TheClauseIsSaid(s: Stmt, cs: seq<Clause>, k: nat)
    requires s.Read? && k < |cs| && OneOfEachKind(cs) && (cs[k].OrderBy? ==> s.order.None?)
    ensures Says(ApplyAll(s, cs), cs[k])
    decreases |cs|
  {
    if k == 0 {
      OtherKindsKeep(ApplyClause(s, cs[0]), cs[1..], Kind(cs[0]));
    } else {
      assert Kind(cs[0]) != Kind(cs[k]);
      TheClauseIsSaid(ApplyClause(s, cs[0]), cs[1..], k - 1);
    }
  }

  lemma SameFieldFromClauses(table: string, cs: seq<Clause>, ds: seq<Clause>, kind: nat)
    requires OneOfEachKind(cs) && OneOfEachKind(ds) && multiset(cs) == multiset(ds) && kind < 4
    ensures SameField(ApplyAll(EmptyRead(table), cs), ApplyAll(EmptyRead(table), ds), kind)
  {
    hide ApplyAll;
    var s := EmptyRead(table);
    if k :| 0 <= k < |cs| && Kind(cs[k]) == kind {
      assert cs[k] in multiset(ds);
      var l :| 0 <= l < |ds| && ds[l] == cs[k];
      TheClauseIsSaid(s, cs, k);
      TheClauseIsSaid(s, ds, l);
    } else {
      forall l | 0 <= l < |ds|
        ensures Kind(ds[l]) != kind
      {
        assert ds[l] in multiset(cs);
        var k :| 0 <= k < |cs| && cs[k] == ds[l];
      }
      OtherKindsKeep(s, cs, kind);
      OtherKindsKeep(s, ds, kind);
    }
  }

  /** The projection, where, order and limit clauses of a read may be written in any order. */
  lemma ClauseOrderIsFree(table: string, cs: seq<Clause>, ds: seq<Clause>)
    requires IsIdent(table) && PlainClauses(cs) && OneOfEachKind(cs) && OneOfEachKind(ds) && multiset(cs) == multiset(ds)
    requires !Forbidden(ReadText(table, cs)) && !Forbidden(ReadText(table, ds))
    ensures Parse(ReadText(table, cs)) == Parse(ReadText(table, ds)) != None
  {
    hide ApplyAll, Parse, Forbidden, IsIdent, PlainClause, OneOfEachKind, ReadText;
    forall i | 0 <= i < |ds|
      ensures PlainClause(ds[i])
    {
      assert ds[i] in multiset(cs);
      var k :| 0 <= k < |cs| && cs[k] == ds[i];
    }
    ReadTextIsParsed(table, cs);
    ReadTextIsParsed(table, ds);
    SameFieldFromClauses(table, cs, ds, 0);
    SameFieldFromClauses(table, cs, ds, 1);
    SameFieldFromClauses(table, cs, ds, 2);
    SameFieldFromClauses(table, cs, ds, 3);
  }

  lemma CanonicalSays(s: Stmt)
    requires s.Read?
    ensures ApplyAll(EmptyRead(s.table), CanonicalClauses(s)) == s
  {
    hide Kind;
    var e := EmptyRead(s.table);
    var a := if s.columns.Some? then [Projection(s.columns.value)] else [];
    var b := if s.where.Some? then [Where(s.where.value)] else [];
    var c := if s.order.Some? then [OrderBy(s.order.value.column, Some(s.order.value.desc))] else [];
    var d := if s.limit.Some? then [LimitTo(s.limit.value)] else [];
    ApplyAppend(e, a, b + (c + d));
    ApplyAppend(ApplyAll(e, a), b, c + d);
    ApplyAppend(ApplyAll(ApplyAll(e, a), b), c, d);
  }

  lemma {:induction false} ApplyAppend(s: Stmt, a: seq<Clause>, b: seq<Clause>)
    requires s.Read?
    ensures ApplyAll(s, a + b) == ApplyAll(ApplyAll(s, a), b)
    decreases |a|
  {
    hide ApplyClause;
    if a == [] {
      assert a + b == b;
    } else {
      assert (a + b)[0] == a[0] && (a + b)[1..] == a[1..] + b;
      ApplyAppend(ApplyClause(s, a[0]), a[1..], b);
    }
  }

  // ---------------------------------------------------------------- inserts

  function BindingText(b: Binding): string {
    b.field + (": " + RhsText(b.rhs))
  }

  function BindingTexts(bs: seq<Binding>): (r: seq<string>)
    ensures |r| == |bs| && forall i :: 0 <= i < |bs| ==> r[i] == BindingText(bs[i])
  {
    seq(|bs|, i requires 0 <= i < |bs| => BindingText(bs[i]))
  }

  /** The tokens between the braces, joined again, are the bindings with commas between. */
  lemma {:induction false} InnerText(bs: seq<Binding>)
    ensures Join(BindingTokens(bs), " ") == Join(BindingTexts(bs), ", ")
    ensures bs != [] ==> BindingTokens(bs) != []
    decreases |bs|
  {
    hide RhsText;
    if |bs| == 1 {
      var f, r := bs[0].field, RhsText(bs[0].rhs);
      assert [f + ":", r][1..] == [r];
      Assoc4(f, ":", " ", r);
      assert ":" + " " == ": " && ": " + r == ":" + (" " + r);
    } else if |bs| > 1 {
      var f, r := bs[0].field, RhsText(bs[0].rhs);
      var t := BindingTokens(bs[1..]);
      InnerText(bs[1..]);
      assert BindingTexts(bs)[1..] == BindingTexts(bs[1..]);
      var ts := [f + ":", r + ","] + t;
      assert ts[1..] == [r + ","] + t && ([r + ","] + t)[1..] == t;
      assert Join(ts, " ") == (f + ":") + " " + (r + "," + " " + Join(t, " "));
    }
  }

  lemma {:induction false} PartTaken(x: string, t: string, cur: string)
    requires ',' !in x
    ensures CommaParts(x + t, cur) == CommaParts(t, cur + x)
  {
    if x == "" {
      assert x + t == t && cur + x == cur;
    } else {
      assert (x + t)[0] == x[0] && (x + t)[1..] == x[1..] + t;
      PartTaken(x[1..], t, cur + [x[0]]);
      assert cur + [x[0]] + x[1..] == cur + x;
    }
  }

  /** Text that `strip` leaves alone. */
  predicate Bare(s: string) {
    s != "" && !IsPySpace(s[0]) && !IsPySpace(s[|s| - 1])
  }

  lemma StripBare(s: string)
    requires Bare(s)
    ensures Strip(s) == s && Strip(" " + s) == s
  {
    hide IsPySpace;
    SpaceIsSpace();
    assert (" " + s)[0] == ' ' && (" " + s)[1..] == s;
  }

  predicate BareParts(ps: seq<string>) {
    forall i :: 0 <= i < |ps| ==> Bare(ps[i]) && ',' !in ps[i]
  }

  lemma {:induction false} PartsOfJoin(ps: seq<string>, cur: string)
    requires BareParts(ps) && ps != [] && (cur == "" || cur == " ")
    ensures CommaParts(Join(ps, ", "), cur) == ps
    decreases |ps|
  {
    hide Strip, Bare;
    var x := ps[0];
    StripBare(x);
    assert cur + x == x || cur + x == " " + x;
    BareIsNonEmpty(x);
    if |ps| == 1 {
      assert x + "" == x;
      PartTaken(x, "", cur);
    } else {
      var t := Join(ps[1..], ", ");
      Assoc3(x, ", ", t);
      PartTaken(x, ", " + t, cur);
      assert (", " + t)[0] == ',' && (", " + t)[1..] == " " + t;
      PartTaken(" ", t, "");
      assert "" + " " == " ";
      PartsOfJoin(ps[1..], " ");
    }
  }

  lemma BareIsNonEmpty(x: string)
    requires Bare(x)
    ensures x != ""
  {
  }

  lemma BindingTextParts(b: Binding)
    requires PlainField(b.field) && PlainRhs(b.rhs)
    ensures Bare(BindingText(b)) && ',' !in BindingText(b) && ParseBinding(BindingText(b)) == Some(b)
  {
    hide RhsText, ParseRhs, Strip, IsPySpace, PlainRhs;
    var f, r := b.field, RhsText(b.rhs);
    var text := BindingText(b);
    RhsIsToken(b.rhs);
    RhsRoundTrip(b.rhs);
    FindSkip(f, ": " + r, ":");
    assert (": " + r)[..1] == ":";
    FindFront(": " + r, ":");
    assert text[..|f|] == f && text[|f| + 1..] == " " + r;
    StripBare(f);
    StripBare(r);
    assert text[0] == f[0] && text[|text| - 1] == r[|r| - 1];
  }

  lemma {:induction false} BindingsBack(bs: seq<Binding>)
    requires forall i :: 0 <= i < |bs| ==> PlainField(bs[i].field) && PlainRhs(bs[i].rhs)
    ensures Bindings(BindingTexts(bs)) == Some(bs) && BareParts(BindingTexts(bs))
    decreases |bs|
  {
    hide ParseBinding, BindingText, Bare, PlainField, PlainRhs;
    if bs != [] {
      var n := |bs| - 1;
      BindingsBack(bs[..n]);
      BindingTextParts(bs[n]);
      assert BindingTexts(bs)[..n] == BindingTexts(bs[..n]);
      assert bs[..n] + [bs[n]] == bs;
      forall i | 0 <= i < |bs|
        ensures Bare(BindingTexts(bs)[i]) && ',' !in BindingTexts(bs)[i]
      {
        BindingTextParts(bs[i]);
      }
    }
  }

  lemma {:induction false} BindingTokensAreTokens(bs: seq<Binding>)
    requires forall i :: 0 <= i < |bs| ==> PlainField(bs[i].field) && PlainRhs(bs[i].rhs)
    ensures Tokens(BindingTokens(bs))
    decreases |bs|
  {
    hide RhsText, IsPySpace;
    if bs != [] {
      RhsIsToken(bs[0].rhs);
      MarkedToken(bs[0].field, ':');
      MarkedToken(RhsText(bs[0].rhs), ',');
      if |bs| > 1 {
        BindingTokensAreTokens(bs[1..]);
      }
    }
  }

  lemma MarkedToken(s: string, c: char)
    requires Token(s) && (c == ':' || c == ',')
    ensures Token(s + [c])
  {
  }

  lemma InsertRoundTrip(s: Stmt)
    requires s.Insert? && Canonical(s)
    ensures Tokens(StmtTokens(s)) && ParseTokens(StmtTokens(s)) == Some(s)
  {
    hide IsIdent, BindingTokens, CommaParts, Bindings, PlainField, PlainRhs;
    var ts, bs := StmtTokens(s), s.bindings;
    IdentIsToken(s.table);
    BindingTokensAreTokens(bs);
    TokensConcat(BindingTokens(bs), ["}"]);
    TokensConcat(["insert", s.table, "{"], BindingTokens(bs) + ["}"]);
    assert ts[0] == "insert" && ts[1] == s.table && ts[2] == "{" && ts[|ts| - 1] == "}";
    assert ts[3..|ts| - 1] == BindingTokens(bs);
    assert Lower("insert") == "insert";
    InnerText(bs);
    BindingsBack(bs);
    if bs != [] {
      PartsOfJoin(BindingTexts(bs), "");
    } else {
      NoParts();
      assert BindingTexts(bs) == [];
    }
  }

  lemma NoParts()
    ensures CommaParts(Join(BindingTokens([]), " "), "") == []
  {
  }

  // ---------------------------------------------------------------- updates and deletes

  lemma {:induction false} SetLoopBack(bs: seq<Binding>, t: seq<string>, done: seq<Binding>)
    requires forall i :: 0 <= i < |bs| ==> PlainSet(bs[i].field) && PlainRhs(bs[i].rhs)
    requires t == [] || t[0] == "where" || t[0] == "returning"
    ensures SetLoop(SetTokens(bs) + t, done) == Some((done + bs, t))
    ensures Tokens(SetTokens(bs))
    decreases |bs|
  {
    hide RhsText, ParseRhs, Token, PlainRhs;
    if bs == [] {
      assert [] + t == t && done + [] == done;
    } else {
      var ts := SetTokens(bs) + t;
      RhsIsToken(bs[0].rhs);
      RhsRoundTrip(bs[0].rhs);
      EqualsIsToken();
      assert ts[0] == bs[0].field && ts[1] == "=" && ts[2] == RhsText(bs[0].rhs) && ts[3..] == SetTokens(bs[1..]) + t;
      SetLoopBack(bs[1..], t, done + [bs[0]]);
      assert done + [bs[0]] + bs[1..] == done + bs;
    }
  }

  lemma EqualsIsToken()
    ensures Token("=")
  {
  }

  lemma UpdateTailBack(w: Option<Predicate>, r: Option<seq<string>>)
    requires (w.Some? ==> PlainPredicate(w.value)) && (r.Some? ==> PlainColumns(r.value))
    ensures var ts := MaybeWhere(w) + ReturningTokens(r);
            && UpdateTail(ts, None) == Some((w, r)) && Tokens(ts)
            && (ts == [] || ts[0] == "where" || ts[0] == "returning")
  {
    hide ParsePredicate, PlainPredicate, PlainColumns, WhereTokens, UpdateTail, ReturningTokens, Token;
    var tail := ReturningTokens(r);
    ReturningBack(w, r);
    if w.Some? {
      PredicateRoundTrip(w.value, tail);
      TokensConcat(WhereTokens(w.value), tail);
      WhereStep(WhereTokens(w.value) + tail, w.value);
    } else {
      assert [] + tail == tail;
    }
  }

  function ReturningTokens(r: Option<seq<string>>): seq<string> {
    if r.None? then [] else ["returning"] + ColumnTokens(r.value)
  }

  lemma ReturningBack(w: Option<Predicate>, r: Option<seq<string>>)
    requires r.Some? ==> PlainColumns(r.value)
    ensures var ts := ReturningTokens(r);
            UpdateTail(ts, w) == Some((w, r)) && Tokens(ts) && (ts == [] || ts[0] == "returning")
  {
    hide ParsePredicate, ColumnTokens, DropCommasAll, PlainColumns;
    if r.Some? {
      var ts := ReturningTokens(r);
      ColumnsRoundTrip(r.value);
      assert ts[0] == "returning" && ts[1..] == ColumnTokens(r.value);
    }
  }

  lemma WhereStep(ts: seq<string>, p: Predicate)
    requires |ts| >= 4 && ts[0] == "where" && ParsePredicate(ts[1..]) == Some(p)
    ensures UpdateTail(ts, None) == UpdateTail(ts[4..], Some(p))
  {
    hide ParsePredicate;
  }

  lemma UpdateRoundTrip(s: Stmt)
    requires s.Update? && Canonical(s)
    ensures Tokens(StmtTokens(s)) && ParseTokens(StmtTokens(s)) == Some(s)
  {
    hide IsIdent, SetTokens, SetLoop, UpdateTail, MaybeWhere, PlainSet, PlainRhs, PlainPredicate, PlainColumns, ReturningTokens;
    var bs := s.bindings;
    var tail := MaybeWhere(s.where) + ReturningTokens(s.returning);
    var ts := StmtTokens(s);
    IdentIsToken(s.table);
    UpdateTailBack(s.where, s.returning);
    SetLoopBack(bs, tail, []);
    TokensConcat(SetTokens(bs), tail);
    TokensConcat(["update", s.table, "set"], SetTokens(bs) + tail);
    assert ts[0] == "update" && ts[1] == s.table && ts[2] == "set" && ts[3..] == SetTokens(bs) + tail;
    assert [] + bs == bs;
    SetTokensLong(bs);
    assert Lower("update") == "update";
  }

  lemma SetTokensLong(bs: seq<Binding>)
    requires bs != []
    ensures |SetTokens(bs)| >= 3
  {
  }

  lemma DeleteRoundTrip(s: Stmt)
    requires s.Delete? && Canonical(s)
    ensures Tokens(StmtTokens(s)) && ParseTokens(StmtTokens(s)) == Some(s)
  {
    hide IsIdent, ParsePredicate, WhereTokens, PlainPredicate;
    var ts := StmtTokens(s);
    IdentIsToken(s.table);
    assert ts[0] == "delete" && ts[1] == "from" && ts[2] == s.table && Lower("delete") == "delete";
    assert ts[2..] == [s.table] + MaybeWhere(s.where);
    if s.where.Some? {
      PredicateRoundTrip(s.where.value, []);
      var w := WhereTokens(s.where.value);
      assert w + [] == w;
      assert ts[2..][1..] == w && ts[2..][2..] == w[1..] && ts[2..][1] == w[0];
      assert |ts[2..]| > 1;
      TokensConcat(["delete", "from", s.table], w);
    }
  }

  /**
   Print and parse: every canonical statement is parsed back from its printed form,
   unless the text holds a semicolon or an interpolation, and then it is rejected.
   */
  lemma PrintParse(s: Stmt)
    requires Canonical(s)
    ensures Parse(Print(s)) == if Forbidden(Print(s)) then None else Some(s)
  {
    hide Parse, Forbidden, ParseTokens;
    match s {
      case Read(t, _, _, _, _) =>
        ReadTextIsParsed(t, CanonicalClauses(s));
        CanonicalSays(s);
      case Insert(_, _) =>
        InsertRoundTrip(s);
        ParseOfTokens(StmtTokens(s));
      case Update(_, _, _, _) =>
        UpdateRoundTrip(s);
        ParseOfTokens(StmtTokens(s));
      case Delete(_, _) =>
        DeleteRoundTrip(s);
        ParseOfTokens(StmtTokens(s));
    }
  }

  // ---------------------------------------------------------------- what the parser takes beyond that

  /** Whatever follows a DELETE's predicate is accepted and has no effect. */
  lemma DeleteIgnoresTheRest(t: string, p: Predicate, rest: seq<string>)
    requires IsIdent(t) && PlainPredicate(p)
    ensures ParseTokens(["delete", "from", t] + (WhereTokens(p) + rest)) == Some(Delete(t, Some(p)))
  {
    hide IsIdent, ParsePredicate, WhereTokens, PlainPredicate;
    PredicateRoundTrip(p, rest);
    var w := WhereTokens(p) + rest;
    var ts := ["delete", "from", t] + w;
    assert ts[0] == "delete" && ts[1] == "from" && Lower("delete") == "delete";
    assert ts[2..] == [t] + w;
    assert ([t] + w)[1] == w[0] && ([t] + w)[2..] == w[1..];
  }

  /** The verb may be in capitals, except that of an update. */
  lemma OnlyUpdateMindsItsCase(ts: seq<string>)
    requires |ts| >= 1 && ts[0] != "update" && Lower(ts[0]) == "update"
    ensures ParseTokens(ts) == None
    ensures ParseTokens(["READ"] + ts[1..]) == ParseTokens(["read"] + ts[1..])
  {
    hide Clauses, IsIdent;
    assert Lower("READ") == "read" && Lower("read") == "read";
    assert (["READ"] + ts[1..])[1..] == ts[1..] && (["read"] + ts[1..])[1..] == ts[1..];
    if |ts| >= 2 {
      assert (["READ"] + ts[1..])[2..] == ts[2..] && (["read"] + ts[1..])[2..] == ts[2..];
    }
  }

  /** In the text `order a desc order b` the earlier direction stays in force for the later column. */
  lemma DirectionIsInherited(t: string, a: string, b: string)
    requires IsIdent(t) && PlainName(a) && PlainName(b)
    ensures
      var text := ReadText(t, [OrderBy(a, Some(true)), OrderBy(b, None)]);
      !Forbidden(text) ==> Parse(text).Some? && Parse(text).value.Read? && Parse(text).value.order == Some(Ordering(b, true))
  {
    hide ReadText, Parse, Forbidden, IsIdent;
    var cs := [OrderBy(a, Some(true)), OrderBy(b, None)];
    assert PlainClause(cs[0]) && PlainClause(cs[1]);
    ReadTextIsParsed(t, cs);
    var s := ApplyClause(EmptyRead(t), cs[0]);
    assert cs[1..] == [OrderBy(b, None)];
    assert ApplyAll(EmptyRead(t), cs) == ApplyAll(s, cs[1..]);
  }
}
