/**
 Compiler correctness: what the executor makes of a flattened statement, scanning its
 characters, is what the liq statement means over tables of column maps.
 */
module Pipeline {
  import opened Text
  import opened Catalog
  import opened Flatten
  import opened Liq
  import opened Lowering
  import opened Native

  // ---------------------------------------------------------------- clean names as text

  predicate Avoids(s: string, bad: string) {
    forall i :: 0 <= i < |s| ==> s[i] !in bad
  }

  lemma CleanNameFacts(s: string)
    requires CleanName(s)
    ensures IsWord(s) && Trimmed(s) && Trim(s) == s && Lower(s) == s
    ensures Avoids(s, " ,'().=?;\"") && !IsDigit(s[0])
  {
    assert forall i :: 0 <= i < |s| ==> !IsSpace(s[i]) && ToLower(s[i]) == s[i] && s[i] !in " ,'().=?;\"" by {
      forall i | 0 <= i < |s|
        ensures !IsSpace(s[i]) && ToLower(s[i]) == s[i] && s[i] !in " ,'().=?;\""
      {
        assert IsNameChar(s[i]);
      }
    }
    TrimOfTrimmed(s);
  }

  predicate CleanList(cs: seq<string>) {
    forall i :: 0 <= i < |cs| ==> CleanName(cs[i])
  }

  // ---------------------------------------------------------------- the comma list

  /** A part of a list that the splitter takes whole. */
  predicate PlainPart(s: string) {
    s != "" && Trimmed(s) && ',' !in s && '\'' !in s
  }

  lemma {:induction false} SplitTakes(x: string, t: string, cur: string)
    requires ',' !in x && '\'' !in x
    ensures SplitCommas(x + t, false, cur) == SplitCommas(t, false, cur + x)
  {
    hide Trim;
    if x == "" {
      assert x + t == t && cur + x == cur;
    } else {
      assert (x + t)[0] == x[0] && (x + t)[1..] == x[1..] + t;
      SplitTakes(x[1..], t, cur + [x[0]]);
      assert cur + [x[0]] + x[1..] == cur + x;
    }
  }

  lemma SplitAtComma(t: string, cur: string)
    ensures SplitCommas(", " + t, false, cur) == [Trim(cur)] + SplitCommas(t, false, " ")
  {
    assert (", " + t)[0] == ',' && (", " + t)[1..] == " " + t;
    assert (" " + t)[0] == ' ' && (" " + t)[1..] == t;
    assert "" + " " == " ";
  }

  /** Splitting a comma list gives back its parts, whatever blanks were pending. */
  lemma {:induction false} SplitOfJoin(parts: seq<string>, cur: string)
    requires (forall i :: 0 <= i < |parts| ==> PlainPart(parts[i])) && AllSpace(cur) && parts != []
    ensures SplitCommas(Join(parts, ", "), false, cur) == parts
  {
    hide Trim, SplitCommas;
    var p := parts[0];
    assert PlainPart(p);
    TrimPadded(cur, p, "");
    assert cur + p + "" == cur + p;
    if |parts| == 1 {
      SplitLast(p, cur);
    } else {
      var t := Join(parts[1..], ", ");
      assert Join(parts, ", ") == p + (", " + t);
      SplitTakes(p, ", " + t, cur);
      SplitAtComma(t, cur + p);
      SplitOfJoin(parts[1..], " ");
      assert parts == [p] + parts[1..];
    }
  }

  lemma SplitLast(p: string, cur: string)
    requires PlainPart(p)
    ensures SplitCommas(p, false, cur) == [Trim(cur + p)]
  {
    assert p == p + "";
    SplitTakes(p, "", cur);
  }

  lemma SplitOfList(parts: seq<string>)
    requires forall i :: 0 <= i < |parts| ==> PlainPart(parts[i])
    ensures SplitCommas(Join(parts, ", "), false, "") == parts
  {
    if parts != [] {
      SplitOfJoin(parts, "");
    }
  }

  lemma {:induction false} JoinTrimmed(parts: seq<string>)
    requires forall i :: 0 <= i < |parts| ==> parts[i] != "" && Trimmed(parts[i])
    ensures Trimmed(Join(parts, ", ")) && (parts != [] ==> Join(parts, ", ") != "")
    ensures parts != [] ==> Join(parts, ", ")[0] == parts[0][0]
  {
    if |parts| > 1 {
      JoinTrimmed(parts[1..]);
      assert Join(parts, ", ") == parts[0] + (", " + Join(parts[1..], ", "));
    }
  }

  // ---------------------------------------------------------------- INSERT text

  lemma {:induction false} ScanPast(s: string, i: nat, k: nat, depth: nat)
    requires i <= k <= |s| && depth > 0
    requires forall j :: i <= j < k ==> s[j] != '(' && s[j] != ')'
    ensures ScanClose(s, i, depth) == ScanClose(s, k, depth)
    decreases k - i
  {
    if i < k {
      ScanPast(s, i + 1, k, depth);
    }
  }

  /** A closing parenthesis behind text without parentheses is where the scan stops. */
  lemma ScanFindsClose(s: string, i: nat, k: nat)
    requires i <= k < |s| && s[k] == ')'
    requires forall j :: i <= j < k ==> s[j] != '(' && s[j] != ')'
    ensures ScanClose(s, i, 1) == (k + 1, 0)
  {
    ScanPast(s, i, k, 1);
  }

  /** The text of an INSERT with the given lists. */
  function InsertSql(table: string, columns: seq<string>, values: seq<string>): string {
    "INSERT INTO " + table + " (" + Join(columns, ", ") + ") VALUES (" + Join(values, ", ") + ")"
  }

  /** The first occurrence of a character from `i` on. */
  lemma FindChar(s: string, c: char, i: nat, k: nat)
    requires i <= k < |s| && s[k] == c
    requires forall j :: i <= j < k ==> s[j] != c
    ensures FindFrom(s, [c], i) == Some(k)
  {
    assert s[k..k + 1] == [c];
    assert At(s, [c], k);
    forall j | i <= j < k
      ensures !At(s, [c], j)
    {
      assert s[j..j + 1] == [s[j]];
    }
  }

  /** A part of an INSERT list: taken whole by the splitter and free of parentheses. */
  predicate PlainParts(parts: seq<string>) {
    forall i :: 0 <= i < |parts| ==> PlainPart(parts[i]) && '(' !in parts[i] && ')' !in parts[i]
  }

  lemma JoinHasNoParens(parts: seq<string>)
    requires PlainParts(parts)
    ensures '(' !in Join(parts, ", ") && ')' !in Join(parts, ", ")
    ensures Trim(Join(parts, ", ")) == Join(parts, ", ")
    ensures SplitCommas(Join(parts, ", "), false, "") == parts
  {
    JoinAvoids(parts, ", ", '(');
    JoinAvoids(parts, ", ", ')');
    JoinTrimmed(parts);
    TrimOfTrimmed(Join(parts, ", "));
    SplitOfList(parts);
  }

  lemma SliceMiddle(a: string, b: string, c: string)
    ensures var s := a + b + c;
            && s[|a|..|a| + |b|] == b && s[..|a|] == a && s[|a| + |b|..] == c
            && (forall j :: 0 <= j < |a| ==> s[j] == a[j])
            && (forall j :: |a| <= j < |a| + |b| ==> s[j] == b[j - |a|])
  {
  }

  /** A parenthesized list: where the scan for `(` and the scan for its `)` stop. */
  lemma ScanList(rest: string, pre: string, gap: string, c: string, tail: string)
    requires rest == pre + gap + "(" + c + ")" + tail
    requires '(' !in gap && '(' !in c && ')' !in c
    ensures var k := |pre| + |gap|;
            && k + 2 + |c| <= |rest|
            && FindFrom(rest, "(", |pre|) == Some(k)
            && ScanClose(rest, k + 1, 1).0 == k + 2 + |c|
            && ScanClose(rest, k + 1, 1).1 == 0
            && rest[k + 1..k + 1 + |c|] == c
            && rest[..k] == pre + gap
  {
    hide *;
    ScanListOpen(rest, pre, gap, c, tail);
    ScanListClose(rest, pre, gap, c, tail);
  }

  lemma ScanListOpen(rest: string, pre: string, gap: string, c: string, tail: string)
    requires rest == pre + gap + "(" + c + ")" + tail
    requires '(' !in gap && '(' !in c && ')' !in c
    ensures FindFrom(rest, "(", |pre|) == Some(|pre| + |gap|)
  {
    hide *;
    Layout(pre, gap, c, tail);
    ScanListAt(rest, |pre|, |pre| + |gap|, gap, c);
  }

  lemma ScanListClose(rest: string, pre: string, gap: string, c: string, tail: string)
    requires rest == pre + gap + "(" + c + ")" + tail
    requires '(' !in gap && '(' !in c && ')' !in c
    ensures var k := |pre| + |gap|;
            && k + 2 + |c| <= |rest|
            && ScanClose(rest, k + 1, 1).0 == k + 2 + |c|
            && ScanClose(rest, k + 1, 1).1 == 0
            && rest[k + 1..k + 1 + |c|] == c
            && rest[..k] == pre + gap
  {
    hide *;
    Layout(pre, gap, c, tail);
    ScanListAt(rest, |pre|, |pre| + |gap|, gap, c);
  }

  lemma Layout(pre: string, gap: string, c: string, tail: string)
    ensures var rest, k := pre + gap + "(" + c + ")" + tail, |pre| + |gap|;
            && |rest| == k + 2 + |c| + |tail|
            && At(rest, gap, |pre|)
            && rest[k] == '('
            && At(rest, c, k + 1)
            && rest[k + 1 + |c|] == ')'
            && rest[..k] == pre + gap
  {
  }

  lemma ScanListAt(rest: string, i: nat, k: nat, gap: string, c: string)
    requires '(' !in gap && '(' !in c && ')' !in c
    requires k == i + |gap| && k + 2 + |c| <= |rest| && rest[k] == '(' && rest[k + 1 + |c|] == ')'
    requires At(rest, gap, i) && At(rest, c, k + 1)
    ensures FindFrom(rest, "(", i) == Some(k)
    ensures ScanClose(rest, k + 1, 1).0 == k + 2 + |c| && ScanClose(rest, k + 1, 1).1 == 0
    ensures rest[k + 1..k + 1 + |c|] == c
  {
    hide ScanClose, FindFrom;
    forall j | i <= j < k
      ensures rest[j] != '('
    {
      assert rest[j] == rest[i..i + |gap|][j - i];
    }
    forall j | k + 1 <= j < k + 1 + |c|
      ensures rest[j] != '(' && rest[j] != ')'
    {
      assert rest[j] == rest[k + 1..k + 1 + |c|][j - k - 1];
    }
    FindChar(rest, '(', i, k);
    ScanFindsClose(rest, k + 1, k + 1 + |c|);
  }

  lemma FindFromHere(b: string, kw: string, t: string)
    ensures FindFrom(b + kw + t, kw, |b|) == Some(|b|)
  {
    SliceMiddle(b, kw, t);
    assert At(b + kw + t, kw, |b|);
  }

  lemma LowerKeyword(b: string, kw: string, lkw: string, t: string)
    requires Lower(kw) == lkw
    ensures FindFrom(Lower(b + kw + t), lkw, |b|) == Some(|b|)
  {
    hide FindFrom;
    LowerConcat(b, kw);
    LowerConcat(b + kw, t);
    FindFromHere(Lower(b), lkw, Lower(t));
  }

  /** The words in front of the table name, in any case. */
  lemma IntoInFront(into: string, rest: string)
    requires Lower(into) == "insert into "
    ensures Find(Lower(into + rest), "insert into ") == Some(0)
    ensures |into| == 12 && (into + rest)[12..] == rest
    ensures StartsWith(Lower(into + rest), "insert") && !StartsWith(Lower(into + rest), "select")
  {
    hide FindFrom;
    LowerConcat(into, rest);
    assert ("insert into " + Lower(rest))[..12] == "insert into ";
    FindFront("insert into " + Lower(rest), "insert into ");
    assert ("insert into " + Lower(rest))[..6] == "insert into "[..6] == "insert";
    assert "insert" != "select" by {
      assert "insert"[0] != "select"[0];
    }
  }

  lemma IntoAtFront(rest: string)
    ensures Find(Lower("INSERT INTO " + rest), "insert into ") == Some(0)
    ensures ("INSERT INTO " + rest)[12..] == rest
    ensures StartsWith(Lower("INSERT INTO " + rest), "insert") && !StartsWith(Lower("INSERT INTO " + rest), "select")
  {
    assert Lower("INSERT INTO ") == "insert into ";
    IntoInFront("INSERT INTO ", rest);
  }

  /** An INSERT with its keywords in any case and any text between the last parentheses. */
  function InsertTextOf(into: string, table: string, columns: seq<string>, kw: string, v: string): string {
    into + (table + " " + "(" + Join(columns, ", ") + ")" + kw + "(" + v + ")")
  }

  /** The scanner reads back the table, the columns and whatever the splitter makes of the values. */
  lemma ParseAnyInsert(into: string, table: string, columns: seq<string>, kw: string, v: string)
    requires Lower(into) == "insert into " && Lower(kw) == " values " && CleanName(table) && PlainParts(columns)
    requires '(' !in v && ')' !in v
    ensures ParseInsert(InsertTextOf(into, table, columns, kw, v)) ==
            Some(InsertText(table, columns, SplitCommas(Trim(v), false, "")))
  {
    hide SplitCommas, ScanClose, Trim, Join, FindFrom, Lower;
    var c := Join(columns, ", ");
    JoinHasNoParens(columns);
    CleanNameFacts(table);
    var name := table + " ";
    var head := name + "(" + c + ")";
    var rest := head + kw + "(" + v + ")";
    IntoInFront(into, rest);
    KeywordHasNoParen(kw);
    ColumnList(name, c, kw, v);
    LowerKeyword(head, kw, " values ", "(" + v + ")");
    Assoc3(head + kw, "(", v);
    Assoc3(head + kw, "(" + v, ")");
    assert rest + "" == rest;
    ScanList(rest, head, kw, v, "");
    TrimPadded("", table, " ");
    assert "" + table + " " == name;
  }

  lemma KeywordHasNoParen(kw: string)
    requires Lower(kw) == " values "
    ensures '(' !in kw
  {
    forall i | 0 <= i < |kw|
      ensures kw[i] != '('
    {
      assert Lower(kw)[i] == ToLower(kw[i]) && " values "[i] != '(';
    }
  }

  /** The scanner reads back the table, the columns and the values an INSERT was written from. */
  lemma ParseInsertText(table: string, columns: seq<string>, values: seq<string>)
    requires CleanName(table) && PlainParts(columns) && PlainParts(values)
    ensures ParseInsert(InsertSql(table, columns, values)) == Some(InsertText(table, columns, values))
  {
    hide SplitCommas, Trim, Join, ParseInsert, InsertSql;
    assert Lower("INSERT INTO ") == "insert into " && Lower(" VALUES ") == " values ";
    JoinHasNoParens(values);
    InsertSqlSplit(table, columns, values);
    ParseAnyInsert("INSERT INTO ", table, columns, " VALUES ", Join(values, ", "));
  }

  lemma ColumnList(name: string, c: string, kw: string, v: string)
    requires '(' !in name && '(' !in c && ')' !in c
    ensures var rest := name + "(" + c + ")" + kw + "(" + v + ")";
            && Find(rest, "(") == Some(|name|)
            && ScanClose(rest, |name| + 1, 1).0 == |name| + 2 + |c|
            && ScanClose(rest, |name| + 1, 1).1 == 0
            && rest[|name| + 1..|name| + 1 + |c|] == c
            && rest[..|name|] == name
            && |name + "(" + c + ")"| == |name| + 2 + |c|
  {
    hide ScanClose, FindFrom;
    Assoc4(name + "(" + c + ")", kw, "(", v);
    Assoc3(name + "(" + c + ")", kw + ("(" + v), ")");
    Assoc3(kw, "(", v);
    assert "" + name == name;
    ScanList(name + "(" + c + ")" + kw + "(" + v + ")", "", name, c, kw + "(" + v + ")");
  }

  lemma InsertSqlSplit(table: string, columns: seq<string>, values: seq<string>)
    ensures InsertSql(table, columns, values)
            == "INSERT INTO " + (table + " " + "(" + Join(columns, ", ") + ")" + " VALUES " + "(" + Join(values, ", ") + ")")
  {
    hide Join;
    assert " (" == " " + "(" && ") VALUES (" == ")" + " VALUES " + "(";
  }

  // ---------------------------------------------------------------- quoted values

  /** Text that a pair of single quotes holds together for every scan of the executor. */
  predicate Quotable(x: string) {
    '\'' !in x && '(' !in x && ')' !in x
  }

  function SingleQuoted(x: string): string {
    "'" + (x + "'")
  }

  function AllQuoted(xs: seq<string>): (r: seq<string>)
    ensures |r| == |xs| && forall i :: 0 <= i < |xs| ==> r[i] == SingleQuoted(xs[i])
  {
    seq(|xs|, i requires 0 <= i < |xs| => SingleQuoted(xs[i]))
  }

  predicate AllQuotable(xs: seq<string>) {
    forall i :: 0 <= i < |xs| ==> Quotable(xs[i])
  }

  lemma {:induction false} SplitInsideQuotes(x: string, t: string, cur: string)
    requires '\'' !in x
    ensures SplitCommas(x + ("'" + t), true, cur) == SplitCommas(t, false, cur + (x + "'"))
  {
    if x == "" {
      assert x + ("'" + t) == "'" + t && ("'" + t)[0] == '\'' && ("'" + t)[1..] == t && x + "'" == "'";
    } else {
      var s := x + ("'" + t);
      assert s[0] == x[0] && s[1..] == x[1..] + ("'" + t);
      SplitInsideQuotes(x[1..], t, cur + [x[0]]);
      assert cur + [x[0]] + (x[1..] + "'") == cur + (x + "'");
    }
  }

  /** A quoted part is taken whole, commas and all. */
  lemma SplitTakesQuoted(x: string, t: string, cur: string)
    requires '\'' !in x
    ensures SplitCommas(SingleQuoted(x) + t, false, cur) == SplitCommas(t, false, cur + SingleQuoted(x))
  {
    Assoc3("'", x + "'", t);
    Assoc3(x, "'", t);
    var s := "'" + (x + ("'" + t));
    assert s[0] == '\'' && s[1..] == x + ("'" + t);
    SplitInsideQuotes(x, t, cur + "'");
    Assoc3(cur, "'", x + "'");
  }

  lemma {:induction false} SplitOfQuoted(xs: seq<string>, cur: string)
    requires AllQuotable(xs) && AllSpace(cur) && xs != []
    ensures SplitCommas(Join(AllQuoted(xs), ", "), false, cur) == AllQuoted(xs)
    decreases |xs|
  {
    hide SplitCommas, SingleQuoted, Trim;
    var q, all := SingleQuoted(xs[0]), AllQuoted(xs);
    assert Quotable(xs[0]);
    QuotedIsTrimmed(xs[0], cur);
    if |xs| == 1 {
      assert all == [q] && Join(all, ", ") == q && q + "" == q;
      SplitTakesQuoted(xs[0], "", cur);
      SplitEnd(cur + q);
    } else {
      var more := Join(all[1..], ", ");
      assert all[1..] == AllQuoted(xs[1..]);
      forall i | 0 <= i < |xs[1..]|
        ensures Quotable(xs[1..][i])
      {
        assert Quotable(xs[i + 1]);
      }
      Assoc3(q, ", ", more);
      SplitTakesQuoted(xs[0], ", " + more, cur);
      SplitAtComma(more, cur + q);
      assert AllSpace(" ");
      SplitOfQuoted(xs[1..], " ");
      assert all == [q] + all[1..];
    }
  }

  lemma SplitEnd(cur: string)
    requires cur != ""
    ensures SplitCommas("", false, cur) == [Trim(cur)]
  {
  }

  lemma QuotedIsTrimmed(x: string, cur: string)
    requires AllSpace(cur)
    ensures Trim(cur + SingleQuoted(x)) == SingleQuoted(x) && cur + SingleQuoted(x) != "" && Trimmed(SingleQuoted(x)) && SingleQuoted(x) != ""
  {
    hide Trim;
    var q := SingleQuoted(x);
    assert q[0] == '\'' && q[|q| - 1] == '\'';
    TrimPadded(cur, q, "");
    assert cur + q + "" == cur + q;
  }

  lemma QuotedIsUnquoted(x: string)
    ensures UnquoteLiteral(SingleQuoted(x)) == x && Trim(SingleQuoted(x)) != "?"
  {
    hide Trim;
    QuotedIsTrimmed(x, "");
    assert "" + SingleQuoted(x) == SingleQuoted(x);
    var q := SingleQuoted(x);
    assert q[0] == '\'' && q[|q| - 1] == '\'' && q[1..|q| - 1] == x;
  }

  function RowWith(columns: seq<string>, values: seq<string>): Row
    requires |columns| == |values|
  {
    if columns == [] then map[]
    else
      var n := |columns| - 1;
      RowWith(columns[..n], values[..n])[columns[n] := values[n]]
  }

  lemma {:induction false} BindQuoted(columns: seq<string>, xs: seq<string>, params: seq<string>, i: nat)
    requires |columns| == |xs| && i <= |columns|
    ensures BindRow(columns, AllQuoted(xs), params, i, 0, RowWith(columns[..i], xs[..i])) == Some(RowWith(columns, xs))
    decreases |columns| - i
  {
    hide UnquoteLiteral, SingleQuoted, Trim;
    if i == |columns| {
      assert columns[..i] == columns && xs[..i] == xs;
    } else {
      QuotedIsUnquoted(xs[i]);
      assert columns[..i + 1][..i] == columns[..i] && xs[..i + 1][..i] == xs[..i];
      BindQuoted(columns, xs, params, i + 1);
    }
  }

  lemma AllQuotedAvoidParens(xs: seq<string>)
    requires AllQuotable(xs)
    ensures '(' !in Join(AllQuoted(xs), ", ") && ')' !in Join(AllQuoted(xs), ", ")
  {
    hide Join;
    forall i | 0 <= i < |xs|
      ensures '(' !in AllQuoted(xs)[i] && ')' !in AllQuoted(xs)[i]
    {
      assert Quotable(xs[i]);
    }
    JoinAvoids(AllQuoted(xs), ", ", '(');
    JoinAvoids(AllQuoted(xs), ", ", ')');
  }

  /** An INSERT of quoted values stores exactly the quoted texts, whatever the case of its keywords. */
  lemma QuotedInsertStores(into: string, table: string, columns: seq<string>, kw: string, xs: seq<string>, params: seq<string>)
    requires Lower(into) == "insert into " && Lower(kw) == " values " && CleanName(table) && PlainParts(columns)
    requires |xs| == |columns| && xs != [] && AllQuotable(xs)
    ensures InsertedRow(InsertTextOf(into, table, columns, kw, Join(AllQuoted(xs), ", ")), params) ==
            Some((table, RowWith(columns, xs)))
  {
    hide *;
    var v := Join(AllQuoted(xs), ", ");
    AllQuotedAvoidParens(xs);
    ParseAnyInsert(into, table, columns, kw, v);
    QuotedListIsTrimmed(xs);
    NoSpace();
    SplitOfQuoted(xs, "");
    InsertIsSolid(into, table, columns, kw, v);
    BindQuoted(columns, xs, params, 0);
    NothingBound(columns, xs);
    RowOfText(InsertTextOf(into, table, columns, kw, v), params, InsertText(table, columns, AllQuoted(xs)));
  }

  lemma NoSpace()
    ensures AllSpace("")
  {
  }

  lemma NothingBound(columns: seq<string>, xs: seq<string>)
    requires |columns| == |xs|
    ensures RowWith(columns[..0], xs[..0]) == map[]
  {
  }

  lemma RowOfText(sql: string, params: seq<string>, text: InsertText)
    requires TrimSql(sql) == sql && ParseInsert(sql) == Some(text)
    ensures InsertedRow(sql, params) ==
            (var row := BindRow(text.columns, text.values, params, 0, 0, map[]);
             if row.None? then None else Some((text.table, row.value)))
  {
    hide TrimSql, ParseInsert, BindRow;
  }

  lemma QuotedListIsTrimmed(xs: seq<string>)
    ensures Trim(Join(AllQuoted(xs), ", ")) == Join(AllQuoted(xs), ", ")
  {
    hide Join, Trim;
    forall i | 0 <= i < |xs|
      ensures AllQuoted(xs)[i] != "" && Trimmed(AllQuoted(xs)[i])
    {
      QuotedIsTrimmed(xs[i], "");
    }
    JoinTrimmed(AllQuoted(xs));
    TrimOfTrimmed(Join(AllQuoted(xs), ", "));
  }

  lemma InsertIsSolid(into: string, table: string, columns: seq<string>, kw: string, v: string)
    requires Lower(into) == "insert into "
    ensures TrimSql(InsertTextOf(into, table, columns, kw, v)) == InsertTextOf(into, table, columns, kw, v)
  {
    hide TrimSql, Join;
    var q := InsertTextOf(into, table, columns, kw, v);
    assert q[0] == into[0] && Lower(into)[0] == ToLower(into[0]) == 'i';
    assert q[|q| - 1] == ')';
    SolidText(q);
  }

  // ---------------------------------------------------------------- binding a row

  /** The row an INSERT stores: parameters by position, the text `%s` for a constant. */
  function BoundRow(bs: seq<Binding>, params: seq<string>): Row
    requires ParamCount(bs) <= |params|
  {
    if bs == [] then map[]
    else
      var init, last := bs[..|bs| - 1], bs[|bs| - 1];
      BoundRow(init, params)[last.field := if last.rhs.ParamRef? then params[ParamCount(init)] else "%s"]
  }

  lemma {:induction false} ParamCountGrows(bs: seq<Binding>, j: nat)
    requires j <= |bs|
    ensures ParamCount(bs[..j]) <= ParamCount(bs)
    decreases |bs|
  {
    if j < |bs| {
      assert bs[..|bs| - 1][..j] == bs[..j];
      ParamCountGrows(bs[..|bs| - 1], j);
    } else {
      assert bs[..j] == bs;
    }
  }

  lemma PlaceholderIsPlain()
    ensures Trim("?") == "?" && PlainPart("?") && '(' !in "?" && ')' !in "?"
  {
    hide TrimLeft, TrimRight;
    TrimOfTrimmed("?");
  }

  lemma ConstantIsPlain()
    ensures Trim("%s") == "%s" && PlainPart("%s") && '(' !in "%s" && ')' !in "%s"
  {
    hide TrimLeft, TrimRight;
    TrimOfTrimmed("%s");
  }

  lemma ConstantIsUnquoted()
    ensures UnquoteLiteral("%s") == "%s" && "%s" != "?"
  {
    hide Trim;
    ConstantIsPlain();
    assert "%s"[0] == '%' && |"%s"| == 2;
  }

  lemma ValueIsTaken(b: Binding)
    ensures Trim(FlatValue(b)) == FlatValue(b) && PlainPart(FlatValue(b))
    ensures (FlatValue(b) == "?") == b.rhs.ParamRef?
    ensures !b.rhs.ParamRef? ==> UnquoteLiteral(FlatValue(b)) == "%s"
    ensures '(' !in FlatValue(b) && ')' !in FlatValue(b)
  {
    hide Trim, PlainPart, UnquoteLiteral;
    PlaceholderIsPlain();
    ConstantIsPlain();
    ConstantIsUnquoted();
  }

  /** The binding loop over the values of a lowered INSERT: it succeeds exactly when the parameters suffice. */
  lemma {:induction false} BindLowered(bs: seq<Binding>, params: seq<string>, i: nat)
    requires i <= |bs| && ParamCount(bs[..i]) <= |params|
    ensures BindRow(Fields(bs), FlatValues(bs), params, i, ParamCount(bs[..i]), BoundRow(bs[..i], params))
            == if ParamCount(bs) <= |params| then Some(BoundRow(bs, params)) else None
    decreases |bs| - i
  {
    hide Trim, UnquoteLiteral;
    if i == |bs| {
      assert bs[..i] == bs;
    } else {
      ValueIsTaken(bs[i]);
      assert bs[..i + 1][..i] == bs[..i] && bs[..i + 1][i] == bs[i];
      ParamCountGrows(bs, i + 1);
      if ParamCount(bs[..i + 1]) <= |params| {
        BindLowered(bs, params, i + 1);
      }
    }
  }

  // ---------------------------------------------------------------- INSERT means insert

  predicate Covers(env: map<string, string>, names: seq<string>) {
    forall n :: n in names ==> n in env
  }

  function RhsValue(r: Rhs, env: map<string, string>): string
    requires r.ParamRef? ==> r.name in env
  {
    match r
    case ParamRef(n) => env[n]
    case ConstText(x) => x
    case ConstInt(n) => Decimal(n)
  }

  /** What an insert says: each field holds the value of its right-hand side, a later binding winning. */
  function InsertMeaning(bs: seq<Binding>, env: map<string, string>): Row
    requires Covers(env, ParamNames(bs))
  {
    if bs == [] then map[]
    else
      var init, last := bs[..|bs| - 1], bs[|bs| - 1];
      assert forall n :: n in ParamNames(init) ==> n in ParamNames(bs);
      assert last.rhs.ParamRef? ==> last.rhs.name in ParamNames(bs);
      InsertMeaning(init, env)[last.field := RhsValue(last.rhs, env)]
  }

  /** The same with every constant replaced by the text `%s` that it is lowered to. */
  function StoredMeaning(bs: seq<Binding>, env: map<string, string>): Row
    requires Covers(env, ParamNames(bs))
  {
    if bs == [] then map[]
    else
      var init, last := bs[..|bs| - 1], bs[|bs| - 1];
      assert forall n :: n in ParamNames(init) ==> n in ParamNames(bs);
      assert last.rhs.ParamRef? ==> last.rhs.name in ParamNames(bs);
      StoredMeaning(init, env)[last.field := if last.rhs.ParamRef? then env[last.rhs.name] else "%s"]
  }

  /** With the values of the parameter uses in order, the stored row is the one the statement names. */
  lemma {:induction false} BoundRowIsStored(bs: seq<Binding>, params: seq<string>, env: map<string, string>)
    requires Covers(env, ParamNames(bs)) && ParamCount(bs) <= |params|
    requires |ParamNames(bs)| == ParamCount(bs)
    requires forall i :: 0 <= i < |ParamNames(bs)| ==> params[i] == env[ParamNames(bs)[i]]
    ensures BoundRow(bs, params) == StoredMeaning(bs, env)
  {
    if bs != [] {
      var init, last := bs[..|bs| - 1], bs[|bs| - 1];
      var names := ParamNames(init);
      assert ParamNames(bs) == names + (if last.rhs.ParamRef? then [last.rhs.name] else []);
      assert forall n :: n in names ==> n in ParamNames(bs);
      assert forall i :: 0 <= i < |names| ==> ParamNames(bs)[i] == names[i];
      assert last.rhs.ParamRef? ==> ParamNames(bs)[|names|] == last.rhs.name;
      assert |names| == ParamCount(init);
      BoundRowIsStored(init, params, env);
    }
  }

  lemma InsertTextIsPlain(t: string, raw: string, bs: seq<Binding>)
    requires CleanName(t) && CleanFields(bs)
    ensures var q := FlatText(t, Insert(raw, bs));
            && q == InsertSql(t, Fields(bs), FlatValues(bs))
            && PlainParts(Fields(bs)) && PlainParts(FlatValues(bs))
            && StripTail(q) == q && TrimSql(q) == q
  {
    hide TrimSql, Join, TrimRight, Trim;
    var q := FlatText(t, Insert(raw, bs));
    forall i | 0 <= i < |bs|
      ensures PlainPart(Fields(bs)[i]) && '(' !in Fields(bs)[i] && ')' !in Fields(bs)[i]
      ensures PlainPart(FlatValues(bs)[i]) && '(' !in FlatValues(bs)[i] && ')' !in FlatValues(bs)[i]
    {
      CleanNameFacts(bs[i].field);
      ValueIsTaken(bs[i]);
    }
    var x := "INSERT INTO " + t + " (" + Join(Fields(bs), ", ") + ") VALUES (" + Join(FlatValues(bs), ", ");
    assert q == x + ")";
    assert q[|q| - 1] == ')' && q[0] == 'I';
    SolidText(q);
  }

  /** Text that begins and ends with something other than blanks and semicolons is left as it is. */
  lemma SolidText(q: string)
    requires q != "" && !IsSpace(q[0]) && !IsSpace(q[|q| - 1]) && q[|q| - 1] != ';'
    ensures StripTail(q) == q && TrimSql(q) == q
  {
    TrimSqlOfTrimmed(q);
  }

  /** The executor on a lowered INSERT: it appends the bound row when the parameters suffice, else nothing. */
  lemma ExecLoweredInsert(t: string, raw: string, bs: seq<Binding>, tables: Tables, params: seq<string>, writable: bool)
    requires CleanName(t) && CleanFields(bs)
    ensures Exec(tables, StripTail(FlatText(t, Insert(raw, bs))), params, writable)
            == if ParamCount(bs) <= |params|
               then Outcome(ExecResult([], if writable then 1 else 0), Append(tables, t, BoundRow(bs, params)))
               else Outcome(NOTHING, tables)
  {
    hide TrimSql, ParseInsert, BindRow, BoundRow, FlatText, ExecSelect, InsertSql, Lower, Join, StripTail;
    var q := FlatText(t, Insert(raw, bs));
    InsertTextIsPlain(t, raw, bs);
    ParseInsertText(t, Fields(bs), FlatValues(bs));
    InsertSqlSplit(t, Fields(bs), FlatValues(bs));
    IntoAtFront(t + " " + "(" + Join(Fields(bs), ", ") + ")" + " VALUES " + "(" + Join(FlatValues(bs), ", ") + ")");
    BindFromStart(bs, params);
  }

  lemma BindFromStart(bs: seq<Binding>, params: seq<string>)
    ensures BindRow(Fields(bs), FlatValues(bs), params, 0, 0, map[])
            == if ParamCount(bs) <= |params| then Some(BoundRow(bs, params)) else None
  {
    assert bs[..0] == [];
    BindLowered(bs, params, 0);
  }
}
