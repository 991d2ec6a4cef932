/**
 The table name that a changefeed event carries, cut out of the SQL text by a scan of
 its own, against the table that the catalog's scan wrote to.
 */
module EventTable {
  import opened Text
  import opened Catalog
  import opened Liq
  import opened Flatten
  import opened Lowering
  import opened Compiler
  import opened Native
  import opened Pipeline

  // ---------------------------------------------------------------- the scan

  /** Where `extract_insert_table` cuts: behind an upper-case INTO, or failing that a lower-case one. */
  function IntoAt(sql: string): Option<nat> {
    var upper := Find(sql, "INTO ");
    if upper.Some? then upper else Find(sql, "into ")
  }

  function UpToParen(s: string): string {
    var open := Find(s, "(");
    if open.Some? then s[..open.value] else s
  }

  function ExtractInsertTable(sql: string): string {
    var pos := IntoAt(sql);
    if pos.None? then "unknown" else IntoEnds(sql); TrimRight(UpToParen(sql[pos.value + 5..]))
  }

  lemma IntoEnds(sql: string)
    ensures IntoAt(sql).Some? ==> IntoAt(sql).value + 5 <= |sql|
  {
  }

  method ExtractTable(sql: string) returns (table: string)
    ensures table == ExtractInsertTable(sql)
  {
    var pos := Find(sql, "INTO ");
    if pos.None? {
      pos := Find(sql, "into ");
    }
    if pos.None? {
      return "unknown";
    }
    var rest := sql[pos.value + 5..];
    var open := Find(rest, "(");
    table := if open.Some? then rest[..open.value] else rest;
    while table != "" && IsSpace(table[|table| - 1])
      invariant TrimRight(table) == ExtractInsertTable(sql)
      decreases |table|
    {
      table := table[..|table| - 1];
    }
  }

  // ---------------------------------------------------------------- against the catalog's scan

  /** Where the catalog's scan starts reading the table name. */
  function CatalogIntoAt(sql: string): Option<nat> {
    var into := Find(Lower(sql), "insert into ");
    if into.None? then None else Some(into.value + 7)
  }

  lemma {:induction false} TrimParts(s: string) returns (a: string, b: string)
    ensures s == a + (Trim(s) + b) && AllSpace(a)
  {
    hide TrimLeft, TrimRight, AllSpace;
    var l := TrimLeft(s);
    TrimLeftCuts(s);
    TrimRightCuts(l);
    a := s[..|s| - |l|];
    b := l[|Trim(s)|..];
    assert l == Trim(s) + b;
    TrimLeftDrops(s);
  }

  lemma {:induction false} TrimLeftDrops(s: string)
    ensures |TrimLeft(s)| <= |s| && AllSpace(s[..|s| - |TrimLeft(s)|])
  {
    TrimLeftCuts(s);
    if s != "" && IsSpace(s[0]) {
      TrimLeftDrops(s[1..]);
      assert s[..|s| - |TrimLeft(s)|] == [s[0]] + s[1..][..|s| - 1 - |TrimLeft(s)|];
    } else {
      assert s[..0] == "";
    }
  }

  lemma {:induction false} DropParts(s: string) returns (b: string)
    requires Trimmed(s)
    ensures s == DropSemicolons(s) + b
    decreases |s|
  {
    hide Trim, AllSpace;
    b := "";
    assert s + "" == s;
    if s != "" && s[|s| - 1] == ';' {
      var t := s[..|s| - 1];
      var a, c := TrimParts(t);
      TrimIsTrimmed(t);
      var d := DropParts(Trim(t));
      NoLeadingSpace(a, Trim(t), c, s);
      b := d + (c + ";");
      assert s == t + ";" && "" + (Trim(t) + c) == Trim(t) + c;
      Assoc3(Trim(t), c, ";");
      Assoc3(DropSemicolons(Trim(t)), d, c + ";");
    }
  }

  /** What is trimmed in front of text that starts with no blank is empty, unless all of it was blank. */
  lemma NoLeadingSpace(a: string, m: string, c: string, s: string)
    requires s != "" && Trimmed(s) && s[..|s| - 1] == a + (m + c) && AllSpace(a)
    ensures a == ""
  {
    assert s[..|s| - 1] != "" ==> s[..|s| - 1][0] == s[0];
  }

  /** `trim_sql` cuts only at the ends, in front only blanks. */
  lemma TrimSqlParts(s: string) returns (a: string, b: string)
    ensures s == a + (TrimSql(s) + b) && AllSpace(a)
  {
    hide DropSemicolons;
    var c, d;
    c, d := TrimParts(s);
    TrimIsTrimmed(s);
    var e := DropParts(Trim(s));
    a, b := c, e + d;
    Assoc3(TrimSql(s), e, d);
  }

  /** The first occurrence inside the trimmed text is the first occurrence of all. */
  lemma FindInTrimmed(a: string, q: string, b: string, p: string)
    requires AllSpace(a) && p != "" && !IsSpace(p[0])
    requires Find(q, p).Some?
    ensures Find(a + (q + b), p) == Some(|a| + Find(q, p).value)
  {
    var k := Find(q, p).value;
    assert p[0] !in a by {
      assert forall c :: c in a ==> IsSpace(c);
    }
    FindSkip(a, q + b, p);
    assert At(q + b, p, k) by {
      assert (q + b)[k..k + |p|] == q[k..k + |p|];
    }
    forall j | 0 <= j < k
      ensures !At(q + b, p, j)
    {
      assert !At(q, p, j);
      assert (q + b)[j..j + |p|] == q[j..j + |p|];
    }
  }

  lemma LowerParts(a: string, q: string, b: string)
    ensures Lower(a + (q + b)) == Lower(a) + (Lower(q) + Lower(b))
    ensures AllSpace(a) ==> Lower(a) == a
  {
    LowerConcat(a, q + b);
    LowerConcat(q, b);
    if AllSpace(a) {
      assert forall i :: 0 <= i < |a| ==> a[i] in a && IsSpace(a[i]);
    }
  }

  /** The table name as the catalog cuts it, read off the untrimmed text. */
  lemma CatalogTable(sql: string, params: seq<string>)
    requires InsertedRow(sql, params).Some?
    ensures CatalogIntoAt(sql).Some? && CatalogIntoAt(sql).value + 5 <= |sql|
    ensures InsertedRow(sql, params).value.0 == Trim(UpToParen(sql[CatalogIntoAt(sql).value + 5..]))
  {
    hide Trim, TrimSql, InsertedRow, FindFrom, Lower, At, UpToParen, AllSpace;
    var q := TrimSql(sql);
    var a, b := TrimSqlParts(sql);
    LowerParts(a, q, b);
    var k, open := InsertedTable(sql, params);
    FindInTrimmed(Lower(a), Lower(q), Lower(b), "insert into ");
    var rest := q[k + 12..];
    TailOfParts(sql, a, q, b, k + 12);
    UpToParenExtends(rest, b);
  }

  lemma UpToParenExtends(rest: string, b: string)
    requires Find(rest, "(").Some?
    ensures Find(rest, "(").value <= |rest| && UpToParen(rest + b) == rest[..Find(rest, "(").value]
  {
    hide FindFrom;
    var open := Find(rest, "(").value;
    FindInTrimmed("", rest, b, "(");
    assert "" + (rest + b) == rest + b;
    assert (rest + b)[..open] == rest[..open];
  }

  lemma TailOfParts(s: string, a: string, q: string, b: string, k: nat)
    requires s == a + (q + b) && k <= |q|
    ensures |a| + k <= |s| && s[|a| + k..] == q[k..] + b
  {
  }

  /** Where the text behind the keyword and the open parenthesis in it lie. */
  predicate CutAt(q: string, into: nat, open: nat) {
    && Find(Lower(q), "insert into ") == Some(into) && into + 12 <= |q|
    && Find(q[into + 12..], "(") == Some(open) && open <= |q| - into - 12
  }

  /** What `exec_insert` cut out when it got as far as a row. */
  lemma InsertedTable(sql: string, params: seq<string>) returns (into: nat, open: nat)
    requires InsertedRow(sql, params).Some?
    ensures CutAt(TrimSql(sql), into, open)
    ensures InsertedRow(sql, params).value.0 == Trim(TrimSql(sql)[into + 12..][..open])
  {
    hide Trim, TrimSql, SplitCommas, ScanClose, BindRow, Find, Lower;
    var q := TrimSql(sql);
    into := Find(Lower(q), "insert into ").value;
    open := Find(q[into + 12..], "(").value;
  }

  /**
   When both scans find the keyword at the same place, the event names the table that
   was written exactly if no blank follows the keyword's own blank.
   */
  lemma EventNamesWrittenTable(sql: string, params: seq<string>)
    requires InsertedRow(sql, params).Some? && IntoAt(sql) == CatalogIntoAt(sql)
    ensures CatalogIntoAt(sql).Some? && CatalogIntoAt(sql).value + 5 <= |sql|
    ensures var name := UpToParen(sql[CatalogIntoAt(sql).value + 5..]);
            ExtractInsertTable(sql) == InsertedRow(sql, params).value.0 <==>
            AllSpace(name) || !IsSpace(name[0])
  {
    hide InsertedRow, FindFrom, UpToParen, Trim, TrimRight, AllSpace, Lower;
    CatalogTable(sql, params);
    TrimBothOrRight(UpToParen(sql[CatalogIntoAt(sql).value + 5..]));
  }

  lemma TrimBothOrRight(s: string)
    ensures TrimRight(s) == Trim(s) <==> AllSpace(s) || !IsSpace(s[0])
  {
    if AllSpace(s) {
      assert s + "" == s;
      TrimLeftPadded(s, "");
      TrimRightPadded("", s);
      assert "" + s == s;
    } else if IsSpace(s[0]) {
      RightKeepsFirst(s);
      TrimIsTrimmed(s);
    }
  }

  lemma {:induction false} RightKeepsFirst(s: string)
    requires !AllSpace(s)
    ensures TrimRight(s) != "" && TrimRight(s)[0] == s[0]
  {
    if IsSpace(s[|s| - 1]) {
      var t := s[..|s| - 1];
      assert s == t + [s[|s| - 1]];
      assert !AllSpace(t);
      RightKeepsFirst(t);
    }
  }

  /** Text that starts with the upper-case keywords: both scans agree. */
  lemma UpperCaseInsertAgrees(sql: string)
    requires StartsWith(sql, "INSERT INTO ")
    ensures IntoAt(sql) == CatalogIntoAt(sql) == Some(7)
  {
    var rest := sql[12..];
    assert sql == "INSERT INTO " + rest;
    assert At(Lower(sql), "insert into ", 0) by {
      LowerConcat("INSERT INTO ", rest);
      assert Lower("INSERT INTO ") == "insert into ";
    }
    assert At(sql, "INTO ", 7) by {
      assert sql[7..12] == "INTO ";
    }
    forall j | 0 <= j < 7
      ensures !At(sql, "INTO ", j)
    {
      if j == 0 {
        assert sql[j..j + 5][2] == sql[2] == "INSERT INTO "[2] == 'S';
      } else {
        assert sql[j..j + 5][0] == sql[j] == "INSERT "[j] != 'I';
      }
    }
  }

  /** So the event of such an insert names the table that was written, unless extra blanks follow INTO. */
  lemma UpperCaseInsertIsNamed(sql: string, params: seq<string>)
    requires StartsWith(sql, "INSERT INTO ") && InsertedRow(sql, params).Some?
    requires |sql| > 12 && !IsSpace(sql[12])
    ensures ExtractInsertTable(sql) == InsertedRow(sql, params).value.0
  {
    hide InsertedRow, ExtractInsertTable, FindFrom;
    UpperCaseInsertAgrees(sql);
    EventNamesWrittenTable(sql, params);
    var name := UpToParen(sql[12..]);
    assert name == "" || name[0] == sql[12];
  }

  /**
   Text that starts with the lower-case keywords: both scans agree exactly as long as no
   upper-case keyword occurs anywhere, be it inside a value.
   */
  lemma LowerCaseInsertAgreesExactly(sql: string)
    requires StartsWith(sql, "insert into ")
    ensures CatalogIntoAt(sql) == Some(7)
    ensures IntoAt(sql) == CatalogIntoAt(sql) <==> Find(sql, "INTO ").None?
  {
    hide FindFrom;
    var rest := sql[12..];
    assert sql == "insert into " + rest;
    LowerKeywordInFront(rest);
    forall j | 0 <= j < 7
      ensures !At(sql, "into ", j)
    {
      if j == 0 {
        assert sql[j..j + 5][2] == sql[2] == "insert into "[2] == 's';
      } else {
        assert sql[j..j + 5][0] == sql[j] == "insert "[j] != 'i';
      }
    }
    assert At(sql, "into ", 7) by {
      assert sql[7..12] == "into ";
    }
    assert sql[7..12][0] == 'i';
    assert "INTO "[0] == 'I';
  }

  lemma LowerKeywordInFront(rest: string)
    ensures Find(Lower("insert into " + rest), "insert into ") == Some(0)
  {
    hide FindFrom;
    LowerConcat("insert into ", rest);
    assert Lower("insert into ") == "insert into ";
    assert (Lower("insert into ") + Lower(rest))[..12] == "insert into ";
    FindFront(Lower("insert into " + rest), "insert into ");
  }

  /** The lower-case companion: the event names the written table while no upper-case keyword occurs in the text. */
  lemma LowerCaseInsertIsNamed(sql: string, params: seq<string>)
    requires StartsWith(sql, "insert into ") && Find(sql, "INTO ").None? && InsertedRow(sql, params).Some?
    requires |sql| > 12 && !IsSpace(sql[12])
    ensures ExtractInsertTable(sql) == InsertedRow(sql, params).value.0
  {
    hide InsertedRow, ExtractInsertTable, FindFrom;
    LowerCaseInsertAgreesExactly(sql);
    EventNamesWrittenTable(sql, params);
    var name := UpToParen(sql[12..]);
    assert name == "" || name[0] == sql[12];
  }

  /** With an upper-case keyword somewhere in a text, the event is named after what follows it. */
  lemma NamedBehindKeyword(before: string, behind: string)
    requires 'I' !in before && '(' !in behind && behind != "" && !IsSpace(behind[|behind| - 1])
    ensures ExtractInsertTable(before + ("INTO " + behind)) == behind
  {
    hide Find, TrimRight;
    var sql := before + ("INTO " + behind);
    KeywordBehind(before, behind);
    FindAbsent(behind, "(", 0);
    SolidEnd(behind);
  }

  lemma KeywordBehind(before: string, behind: string)
    requires 'I' !in before
    ensures var sql := before + ("INTO " + behind);
            Find(sql, "INTO ") == Some(|before|) && sql[|before| + 5..] == behind
  {
    hide Find;
    assert ("INTO " + behind)[..5] == "INTO " && ("INTO " + behind)[5..] == behind;
    FindSkip(before, "INTO " + behind, "INTO ");
    FindFront("INTO " + behind, "INTO ");
  }

  lemma SolidEnd(s: string)
    requires s != "" && !IsSpace(s[|s| - 1])
    ensures TrimRight(s) == s
  {
  }

  /** A lower-case insert whose value holds the upper-case keyword: the row goes to `t`, the event names `x')`. */
  lemma LowerCaseEventIsMisled()
    ensures
      var sql := "insert into " + "t (a) values ('INTO x')";
      InsertedRow(sql, []) == Some(("t", map["a" := "INTO x"])) && ExtractInsertTable(sql) == "x')"
  {
    hide InsertedRow, ExtractInsertTable;
    MisleadingRow();
    var before := "insert into t (a) values ('";
    assert 'I' !in before && '(' !in "x')";
    NamedBehindKeyword(before, "x')");
    MisleadingParts();
  }

  lemma MisleadingParts()
    ensures "insert into t (a) values ('" + ("INTO " + "x')") == "insert into " + "t (a) values ('INTO x')"
  {
    assert "INTO " + "x')" == "INTO x')";
    assert "t (a) values ('" + "INTO x')" == "t (a) values ('INTO x')";
    assert "insert into " + "t (a) values ('" == "insert into t (a) values ('";
    Assoc3("insert into ", "t (a) values ('", "INTO x')");
  }

  lemma MisleadingRow()
    ensures InsertedRow("insert into " + "t (a) values ('INTO x')", []) == Some(("t", map["a" := "INTO x"]))
  {
    hide InsertedRow, PlainPart;
    assert Lower("insert into ") == "insert into " && Lower(" values ") == " values ";
    assert CleanName("t");
    LetterIsPlain();
    assert Quotable("INTO x");
    QuotedInsertStores("insert into ", "t", ["a"], " values ", ["INTO x"], []);
    MisleadingText();
  }

  lemma MisleadingText()
    ensures InsertTextOf("insert into ", "t", ["a"], " values ", Join(AllQuoted(["INTO x"]), ", ")) ==
            "insert into " + "t (a) values ('INTO x')"
  {
    assert AllQuoted(["INTO x"]) == [SingleQuoted("INTO x")] && SingleQuoted("INTO x") == "'INTO x'";
    assert "t" + " " + "(" == "t (" && "t (" + "a" == "t (a" && "t (a" + ")" == "t (a)" && "t (a)" + " values " == "t (a) values ";
    assert "t (a) values " + "(" == "t (a) values (" && "t (a) values (" + "'INTO x'" + ")" == "t (a) values ('INTO x')";
  }

  /** Text whose event is sure to name the table written: plain keywords in one case, and one blank. */
  predicate PlainInsert(sql: string) {
    && (StartsWith(sql, "INSERT INTO ") || (StartsWith(sql, "insert into ") && Find(sql, "INTO ").None?))
    && |sql| > 12 && !IsSpace(sql[12])
  }

  lemma PlainInsertIsNamed(sql: string, params: seq<string>)
    requires PlainInsert(sql) && InsertedRow(sql, params).Some?
    ensures ExtractInsertTable(sql) == InsertedRow(sql, params).value.0
  {
    hide InsertedRow, ExtractInsertTable, FindFrom;
    if StartsWith(sql, "INSERT INTO ") {
      UpperCaseInsertIsNamed(sql, params);
    } else {
      LowerCaseInsertIsNamed(sql, params);
    }
  }

  /** The event of a compiled insert always names the table that was written. */
  lemma CompiledInsertIsNamed(cat: Allowlist, s: Stmt, params: seq<string>)
    requires CleanAllowlist(cat) && s.Insert? && LowerStmt(cat, s).Ok?
    requires InsertedRow(FlattenEngine(FlattenBridge(LowerStmt(cat, s).value.sql)), params).Some?
    ensures ResolveTable(cat, s.table).Ok?
    ensures var flat := FlattenEngine(FlattenBridge(LowerStmt(cat, s).value.sql));
            ExtractInsertTable(flat) == InsertedRow(flat, params).value.0 == ResolveTable(cat, s.table).value.1
  {
    hide *;
    CompiledFlattens(cat, s);
    var t := ResolveTable(cat, s.table).value.1;
    var flat := FlattenEngine(FlattenBridge(LowerStmt(cat, s).value.sql));
    CleanInsertIsNamed(t, s, flat, params);
  }

  lemma CleanInsertIsNamed(t: string, s: Stmt, flat: string, params: seq<string>)
    requires CleanName(t) && s.Insert? && CleanStmt(s) && flat == StripTail(FlatText(t, s))
    requires InsertedRow(flat, params).Some?
    ensures ExtractInsertTable(flat) == InsertedRow(flat, params).value.0 == t
  {
    hide TrimSql, BindRow, FindFrom, Join, StripTail, ExtractInsertTable, ParseInsert;
    var bs := s.bindings;
    InsertTextIsPlain(t, s.table, bs);
    ParseInsertText(t, Fields(bs), FlatValues(bs));
    CleanNameFacts(t);
    var rest := t + (" (" + Join(Fields(bs), ", ") + ") VALUES (" + Join(FlatValues(bs), ", ") + ")");
    InsertSqlStart(t, Join(Fields(bs), ", "), Join(FlatValues(bs), ", "));
    UpperCaseInsertIsNamed(flat, params);
  }

  lemma InsertSqlStart(t: string, c: string, v: string)
    ensures "INSERT INTO " + t + " (" + c + ") VALUES (" + v + ")" ==
            "INSERT INTO " + (t + (" (" + c + ") VALUES (" + v + ")"))
  {
    var kw := "INSERT INTO ";
    Assoc4(kw + t, " (", c, ") VALUES (");
    Assoc4(kw + t, " (" + (c + ") VALUES ("), v, ")");
    Assoc3(kw, t, " (" + (c + ") VALUES (") + (v + ")"));
    Assoc3(" (", c, ") VALUES (");
    Assoc3(" (" + c + ") VALUES (", v, ")");
  }

  /** The catalog ignores the case of the keywords in front. */
  lemma KeywordCaseIsIgnored(kw: string, rest: string, params: seq<string>)
    requires |kw| == 12 && Lower(kw) == "insert into "
    requires rest != "" && !IsSpace(rest[|rest| - 1]) && rest[|rest| - 1] != ';'
    ensures InsertedRow(kw + rest, params) == InsertedRow("INSERT INTO " + rest, params)
  {
    hide TrimSql, BindRow, ParseInsert, FindFrom, Lower;
    assert Lower("INSERT INTO ") == "insert into " by {
    }
    KeywordInFront(kw, rest);
    KeywordInFront("INSERT INTO ", rest);
    SameScan(kw + rest, "INSERT INTO " + rest);
  }

  lemma KeywordInFront(kw: string, rest: string)
    requires |kw| == 12 && Lower(kw) == "insert into "
    requires rest != "" && !IsSpace(rest[|rest| - 1]) && rest[|rest| - 1] != ';'
    ensures TrimSql(kw + rest) == kw + rest && (kw + rest)[12..] == rest
    ensures Lower(kw + rest) == "insert into " + Lower(rest)
    ensures Find(Lower(kw + rest), "insert into ") == Some(0)
  {
    hide TrimSql, FindFrom;
    assert Lower(kw)[0] == ToLower(kw[0]) == 'i';
    SolidText(kw + rest);
    LowerConcat(kw, rest);
    assert ("insert into " + Lower(rest))[..12] == "insert into ";
    FindFront(Lower(kw + rest), "insert into ");
  }

  lemma SameScan(q: string, p: string)
    requires 12 <= |q| == |p| && Lower(q) == Lower(p) && q[12..] == p[12..]
    requires Find(Lower(q), "insert into ") == Some(0)
    ensures ParseInsert(q) == ParseInsert(p)
  {
    hide FindFrom, ScanClose, SplitCommas, Trim, Lower;
  }

  /** With mixed-case keywords the row is stored, but the event names no table: it says `unknown`. */
  lemma MixedCaseIsUnknown()
    ensures var sql := "Insert Into " + "t (a) VALUES (?)";
            InsertedRow(sql, ["1"]) == Some(("t", map["a" := "1"])) && ExtractInsertTable(sql) == "unknown"
  {
    hide InsertedRow;
    var rest := "t (a) VALUES (?)";
    assert Lower("Insert Into ") == "insert into ";
    KeywordCaseIsIgnored("Insert Into ", rest, ["1"]);
    OneColumnInsert();
    var sql := "Insert Into " + rest;
    assert 'N' !in sql && 'i' !in sql;
    FindAbsent(sql, "INTO ", 1);
    FindAbsent(sql, "into ", 0);
  }

  lemma OneColumnInsert()
    ensures InsertedRow("INSERT INTO " + "t (a) VALUES (?)", ["1"]) == Some(("t", map["a" := "1"]))
  {
    hide FindFrom, ParseInsert, TrimSql, SplitCommas, TrimLeft, TrimRight;
    var q := InsertSql("t", ["a"], ["?"]);
    assert q == "INSERT INTO " + "t (a) VALUES (?)";
    SolidText(q);
    assert CleanName("t");
    PlaceholderIsPlain();
    LetterIsPlain();
    ParseInsertText("t", ["a"], ["?"]);
    TrimOfTrimmed("?");
  }

  lemma LetterIsPlain()
    ensures PlainParts(["a"]) && PlainParts(["?"])
  {
    hide Trim, Lower;
    CleanNameFacts("a");
    PlaceholderIsPlain();
  }
}
