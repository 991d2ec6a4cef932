/**
 Compiled reads: the flattened SELECT as blank-separated words, and what each scan of
 `exec_select` finds in them.
 */
module ReadPipeline {
  import opened Text
  import opened Catalog
  import opened Flatten
  import opened Liq
  import opened Lowering
  import opened Native
  import opened Pipeline

  // ---------------------------------------------------------------- the words of a read

  /** Names with a comma behind all but the last. */
  function CommaWords(cs: seq<string>): seq<string> {
    if |cs| <= 1 then cs else [cs[0] + ","] + CommaWords(cs[1..])
  }

  function ProjectionWords(columns: Option<seq<string>>): seq<string> {
    if columns.None? || columns.value == [] then ["*"] else CommaWords(columns.value)
  }

  function WhereWords(w: Option<Predicate>): seq<string> {
    if w.None? then [] else ["WHERE", w.value.column, "=", "?"]
  }

  function OrderWords(o: Option<Ordering>): seq<string> {
    if o.None? then [] else ["ORDER", "BY", o.value.column, if o.value.desc then "DESC" else "ASC"]
  }

  function LimitWords(l: Option<nat>): seq<string> {
    if l.None? then [] else ["LIMIT", Decimal(l.value)]
  }

  /** A SELECT: select list, table, comparison, whatever words follow that, limit. */
  datatype Query = Query(table: string, columns: Option<seq<string>>, where: Option<Predicate>, more: seq<string>, limit: Option<nat>)

  function QueryWords(r: Query): seq<string> {
    HeadWords(r) + WhereWords(r.where) + r.more + LimitWords(r.limit)
  }

  /** The words in front of the clauses. */
  function HeadWords(r: Query): seq<string> {
    ["SELECT"] + ProjectionWords(r.columns) + ["FROM", r.table]
  }

  function QueryOf(t: string, s: Stmt): Query
    requires s.Read?
  {
    Query(t, s.columns, s.where, OrderWords(s.order), s.limit)
  }

  /** Clean names, and words behind the comparison that no clause search stops at. */
  predicate CleanQuery(r: Query) {
    && CleanName(r.table) && CleanColumns(r.columns) && CleanWhere(r.where)
    && AllPassed(r.more) && (r.more != [] ==> NoSemicolon(r.more[|r.more| - 1]))
  }

  predicate NoSemicolon(w: string) {
    w != "" && w[|w| - 1] != ';'
  }

  lemma {:induction false} JoinCommaWords(cs: seq<string>)
    ensures Join(CommaWords(cs), " ") == Join(cs, ", ")
  {
    if |cs| > 1 {
      JoinCommaWords(cs[1..]);
      assert CommaWords(cs)[1..] == CommaWords(cs[1..]);
      assert "," + " " == ", ";
      Assoc3(cs[0], ",", " ");
    }
  }

  /** One more clause: its words behind a blank. */
  lemma JoinClause(ws: seq<string>, clause: seq<string>, text: string)
    requires ws != []
    requires text == if clause == [] then "" else " " + Join(clause, " ")
    ensures Join(ws + clause, " ") == Join(ws, " ") + text
  {
    if clause == [] {
      assert ws + clause == ws;
      assert Join(ws, " ") + "" == Join(ws, " ");
    } else {
      JoinConcat(ws, clause, " ");
      Assoc3(Join(ws, " "), " ", Join(clause, " "));
    }
  }

  lemma JoinTwo(a: string, b: string)
    ensures Join([a, b], " ") == a + " " + b
  {
    assert [a, b][1..] == [b];
  }

  lemma JoinFour(a: string, b: string, c: string, d: string)
    ensures Join([a, b, c, d], " ") == a + " " + (b + " " + (c + " " + d))
  {
    assert [a, b, c, d][1..] == [b, c, d];
    assert [b, c, d][1..] == [c, d];
    JoinTwo(c, d);
  }

  lemma WhereClauseText(w: Option<Predicate>)
    ensures FlatWhere(w) == if WhereWords(w) == [] then "" else " " + Join(WhereWords(w), " ")
  {
    if w.Some? {
      var c := w.value.column;
      JoinFour("WHERE", c, "=", "?");
      assert "=" + " " + "?" == "= ?" && " " + "WHERE" + " " == " WHERE " && " " + "= ?" == " = ?";
      Assoc3(" " + "WHERE" + " ", c, " = ?");
      Assoc3(c, " ", "= ?");
      Assoc4(" ", "WHERE", " ", c + " = ?");
      Assoc3("WHERE", " ", c + " = ?");
    }
  }

  lemma OrderClauseText(o: Option<Ordering>)
    ensures FlatOrder(o) == if OrderWords(o) == [] then "" else " " + Join(OrderWords(o), " ")
  {
    if o.Some? {
      var c, d := o.value.column, if o.value.desc then "DESC" else "ASC";
      JoinFour("ORDER", "BY", c, d);
      assert " DESC" == " " + "DESC" && " ASC" == " " + "ASC";
      assert " " + "ORDER" + " " + "BY" + " " == " ORDER BY ";
      Assoc3(" ORDER BY ", c, " " + d);
      Assoc3(c, " ", d);
      Assoc3(" " + "ORDER" + " ", "BY", " ");
      Assoc3(" " + "ORDER" + " ", "BY" + " ", c + " " + d);
      Assoc4(" ", "ORDER", " ", "BY" + " " + (c + " " + d));
      Assoc3("ORDER", " ", "BY" + " " + (c + " " + d));
    }
  }

  lemma LimitClauseText(l: Option<nat>)
    ensures FlatLimit(l) == if LimitWords(l) == [] then "" else " " + Join(LimitWords(l), " ")
  {
    if l.Some? {
      JoinTwo("LIMIT", Decimal(l.value));
      assert " " + "LIMIT" + " " == " LIMIT ";
      Assoc3(" ", "LIMIT", " ");
      Assoc3(" ", "LIMIT" + " ", Decimal(l.value));
    }
  }

  /** The flattened text of a read is its words with blanks between them. */
  lemma ReadTextIsWords(t: string, s: Stmt)
    requires s.Read?
    ensures FlatText(t, s) == Join(QueryWords(QueryOf(t, s)), " ")
  {
    var p := ProjectionWords(s.columns);
    if s.columns.Some? && s.columns.value != [] {
      JoinCommaWords(s.columns.value);
    }
    var w1 := ["SELECT"] + p;
    JoinConcat(["SELECT"], p, " ");
    var w2 := w1 + ["FROM", t];
    JoinTwo("FROM", t);
    JoinConcat(w1, ["FROM", t], " ");
    assert " " + "FROM" + " " == " FROM ";
    Assoc3(Join(w1, " "), " ", "FROM" + " " + t);
    Assoc3(" ", "FROM" + " ", t);
    Assoc3(" ", "FROM", " ");
    Assoc3(Join(w1, " "), " FROM ", t);
    assert "SELECT" + " " == "SELECT ";
    WhereClauseText(s.where);
    OrderClauseText(s.order);
    LimitClauseText(s.limit);
    JoinClause(w2, WhereWords(s.where), FlatWhere(s.where));
    JoinClause(w2 + WhereWords(s.where), OrderWords(s.order), FlatOrder(s.order));
    JoinClause(w2 + WhereWords(s.where) + OrderWords(s.order), LimitWords(s.limit), FlatLimit(s.limit));
  }

  // ---------------------------------------------------------------- searching the words

  /** Cutting the text at an interior word. */
  lemma CutAtWord(ws: seq<string>, k: nat)
    requires 1 <= k < |ws| - 1
    ensures Join(ws, " ") == Join(ws[..k], " ") + (" " + ws[k] + " ") + Join(ws[k + 1..], " ")
  {
    JoinSplit(ws, k, " ");
    assert ws[k..][0] == ws[k] && ws[k..][1..] == ws[k + 1..];
    var a, b := Join(ws[..k], " "), Join(ws[k + 1..], " ");
    Assoc3(a, " ", ws[k] + " " + b);
    Assoc3(" ", ws[k] + " ", b);
    Assoc3(" ", ws[k], " ");
    Assoc3(a, " " + ws[k] + " ", b);
  }

  /** A keyword at word `k` and nowhere before: found there, with the other words on either side. */
  lemma KeywordFound(q: string, ws: seq<string>, w: string, k: nat)
    requires q == Join(ws, " ") && Words(ws) && IsWord(w)
    requires 1 <= k < |ws| - 1 && Lower(ws[k]) == w && forall i :: 1 <= i < k ==> Lower(ws[i]) != w
    ensures var at := |Join(ws[..k], " ")|;
            && Find(Lower(q), " " + w + " ") == Some(at)
            && at + |w| + 2 <= |q|
            && q[..at] == Join(ws[..k], " ")
            && q[at + |w| + 2..] == Join(ws[k + 1..], " ")
  {
    hide Find, Join;
    LowerJoin(ws);
    FindWord(MapLower(ws), w);
    LowerJoin(ws[..k]);
    assert MapLower(ws)[..k] == MapLower(ws[..k]);
    CutAtWord(ws, k);
    SliceMiddle(Join(ws[..k], " "), " " + ws[k] + " ", Join(ws[k + 1..], " "));
  }

  lemma KeywordAbsent(q: string, ws: seq<string>, w: string)
    requires q == Join(ws, " ") && ws != [] && Words(ws) && IsWord(w)
    requires forall i :: 1 <= i < |ws| - 1 ==> Lower(ws[i]) != w
    ensures Find(Lower(q), " " + w + " ") == None
  {
    hide Find, Join;
    LowerJoin(ws);
    FindWord(MapLower(ws), w);
  }

  /** The first blank of joined words ends the first word. */
  lemma FirstWord(ws: seq<string>)
    requires ws != [] && Words(ws)
    ensures var q := Join(ws, " ");
            && Find(q, " ") == (if |ws| == 1 then None else Some(|ws[0]|))
            && |ws[0]| <= |q| && q[..|ws[0]|] == ws[0]
  {
    var q := Join(ws, " ");
    assert ' ' !in ws[0];
    if |ws| == 1 {
      FindAbsent(q, " ", 0);
    } else {
      assert q == ws[0] + (" " + Join(ws[1..], " "));
      assert q[|ws[0]|] == ' ';
      FindChar(q, ' ', 0, |ws[0]|);
    }
  }

  // ---------------------------------------------------------------- words of a clean read

  /** A word of the select list: a clean name, one with a comma behind it, or the star. */
  predicate ListWord(x: string) {
    CleanName(x) || (|x| > 1 && x[|x| - 1] == ',' && CleanName(x[..|x| - 1])) || x == "*"
  }

  lemma ListWordFacts(x: string)
    requires ListWord(x)
    ensures IsWord(x) && Lower(x) == x && x !in RESERVED && '(' !in x && x[0] != '1'
  {
    hide Avoids, CleanName, Trim, Trimmed;
    if CleanName(x) {
      CleanNameFacts(x);
      CleanNameStarts(x);
    } else if x == "*" {
    } else {
      assert x == x[..|x| - 1] + ",";
      CommaWordFacts(x[..|x| - 1]);
    }
  }

  lemma CleanNameStarts(x: string)
    requires CleanName(x)
    ensures x[0] != '1' && x[0] != '*' && '(' !in x && x !in RESERVED
  {
    assert forall i :: 0 <= i < |x| ==> IsNameChar(x[i]);
  }

  lemma CommaWordFacts(y: string)
    requires CleanName(y)
    ensures var x := y + ","; IsWord(x) && Lower(x) == x && x !in RESERVED && '(' !in x && x[0] != '1'
  {
    hide Trim, Trimmed, CleanName, Avoids;
    CleanNameFacts(y);
    CleanNameStarts(y);
    LowerConcat(y, ",");
    assert Lower(",") == ",";
    var x := y + ",";
    assert x[|x| - 1] == ',' && x[0] == y[0];
    assert forall i :: 0 <= i < |y| ==> x[i] == y[i] && !IsSpace(y[i]);
  }

  lemma {:induction false} CommaWordsAreListWords(cs: seq<string>)
    requires CleanList(cs)
    ensures |CommaWords(cs)| == |cs|
    ensures forall i :: 0 <= i < |CommaWords(cs)| ==> ListWord(CommaWords(cs)[i])
  {
    if |cs| > 1 {
      CommaWordsAreListWords(cs[1..]);
      var x := cs[0] + ",";
      assert x[..|x| - 1] == cs[0];
    }
  }

  lemma ProjectionIsListWords(columns: Option<seq<string>>)
    requires CleanColumns(columns)
    ensures ProjectionWords(columns) != []
    ensures forall i :: 0 <= i < |ProjectionWords(columns)| ==> ListWord(ProjectionWords(columns)[i])
  {
    if columns.Some? && columns.value != [] {
      CommaWordsAreListWords(columns.value);
    }
  }

  lemma KeywordsAreWords()
    ensures IsWord("SELECT") && IsWord("FROM") && IsWord("WHERE") && IsWord("ORDER") && IsWord("BY")
    ensures IsWord("ASC") && IsWord("DESC") && IsWord("LIMIT") && IsWord("=") && IsWord("?")
    ensures IsWord("from") && IsWord("where") && IsWord("limit")
  {
  }

  /** How the keywords read in lower case, and that no two of them are confused. */
  lemma LowerKeywords()
    ensures Lower("FROM") == "from" && Lower("WHERE") == "where" && Lower("LIMIT") == "limit"
    ensures Lower("SELECT") == "select"
    ensures Lower("FROM") != "where" && Lower("FROM") != "limit" && Lower("ORDER") != "where" && Lower("ORDER") != "limit"
    ensures Lower("BY") != "where" && Lower("BY") != "limit" && Lower("ASC") != "where" && Lower("ASC") != "limit"
    ensures Lower("DESC") != "where" && Lower("DESC") != "limit" && Lower("=") != "where" && Lower("=") != "limit"
    ensures Lower("?") != "where" && Lower("?") != "limit" && Lower("LIMIT") != "where"
  {
    assert |"from"| == 4 && |"order"| == 5 && |"by"| == 2 && |"desc"| == 4;
    assert Lower("ORDER")[0] == 'o' && "where"[0] == 'w' && "limit"[0] == 'l';
    assert Lower("LIMIT")[0] == 'l';
  }

  lemma DecimalWord(n: nat)
    ensures IsWord(Decimal(n)) && Lower(Decimal(n)) != "where" && Lower(Decimal(n)) != "limit" && '(' !in Decimal(n)
  {
    var d := Decimal(n);
    assert forall i :: 0 <= i < |d| ==> IsDigit(d[i]);
    assert Lower(d)[0] == d[0];
    assert "where"[0] == 'w' && "limit"[0] == 'l';
  }

  lemma CleanWord(c: string)
    requires CleanName(c)
    ensures IsWord(c) && Lower(c) != "from" && Lower(c) != "where" && Lower(c) != "limit"
    ensures '(' !in c && '=' !in c && '.' !in c && ' ' !in c && Lower(c) == c
  {
    hide CleanName, Trim, Trimmed;
    CleanNameFacts(c);
    CleanNameStarts(c);
  }

  /** A word that neither of the two clause searches stops at. */
  predicate Passed(x: string) {
    IsWord(x) && Lower(x) != "where" && Lower(x) != "limit" && '(' !in x
  }

  predicate AllPassed(ws: seq<string>) {
    forall i :: 0 <= i < |ws| ==> Passed(ws[i])
  }

  lemma OrderKeywordsPass()
    ensures Passed("ORDER") && Passed("BY") && Passed("ASC") && Passed("DESC")
  {
    hide Lower, IsWord;
    KeywordsAreWords();
    LowerKeywords();
    assert '(' !in "ORDER" && '(' !in "BY" && '(' !in "ASC" && '(' !in "DESC";
  }

  lemma OrderWordsPass(o: Option<Ordering>)
    requires o.Some? ==> CleanName(o.value.column)
    ensures AllPassed(OrderWords(o))
  {
    hide Lower, CleanName, IsWord;
    if o.Some? {
      OrderKeywordsPass();
      CleanWord(o.value.column);
    }
  }

  lemma ListWordsPass(ws: seq<string>)
    requires forall i :: 0 <= i < |ws| ==> ListWord(ws[i])
    ensures AllPassed(ws) && forall i :: 0 <= i < |ws| ==> Lower(ws[i]) != "from"
  {
    forall i | 0 <= i < |ws|
      ensures Passed(ws[i]) && Lower(ws[i]) != "from"
    {
      hide ListWord, Lower;
      ListWordFacts(ws[i]);
    }
  }

  lemma ComparisonPasses(c: string)
    requires CleanName(c)
    ensures AllPassed([c, "=", "?"])
  {
    hide Lower, CleanName;
    KeywordsAreWords();
    LowerKeywords();
    CleanWord(c);
    assert '(' !in "=" && '(' !in "?";
  }

  lemma HeadWordsFacts(r: Query)
    requires CleanQuery(r)
    ensures var ws, n := HeadWords(r), |ProjectionWords(r.columns)|;
            && n >= 1 && |ws| == n + 3
            && AllPassed(ws)
            && (forall i :: 1 <= i <= n ==> Lower(ws[i]) != "from")
            && ws[n + 1] == "FROM" && ws[n + 2] == r.table
            && ws[..n + 1] == ["SELECT"] + ProjectionWords(r.columns)
  {
    hide ListWord, Lower, CleanName, Passed;
    var p := ProjectionWords(r.columns);
    ProjectionIsListWords(r.columns);
    ListWordsPass(p);
    KeywordPasses(r.table);
  }

  lemma KeywordPasses(t: string)
    requires CleanName(t)
    ensures AllPassed(["SELECT"]) && AllPassed(["FROM", t])
  {
    hide Lower, CleanName;
    KeywordsAreWords();
    LowerKeywords();
    CleanWord(t);
    assert '(' !in "FROM" && '(' !in "SELECT";
    assert "select"[0] == 's' && "where"[0] == 'w' && "limit"[0] == 'l';
  }

  // ---------------------------------------------------------------- the scans of exec_select

  /** The words behind the comparison. */
  function AfterWhere(r: Query): seq<string> {
    r.more + LimitWords(r.limit)
  }

  lemma LimitWordsFacts(l: Option<nat>)
    ensures Words(LimitWords(l)) && forall i :: 0 <= i < |LimitWords(l)| ==> Lower(LimitWords(l)[i]) != "where" && '(' !in LimitWords(l)[i]
    ensures l.Some? ==> Lower(LimitWords(l)[0]) == "limit"
  {
    hide Lower, IsWord, Decimal;
    if l.Some? {
      KeywordsAreWords();
      LowerKeywords();
      DecimalWord(l.value);
      assert '(' !in "LIMIT";
    }
  }

  lemma WhereWordsFacts(w: Option<Predicate>)
    requires CleanWhere(w)
    ensures Words(WhereWords(w)) && forall i :: 0 <= i < |WhereWords(w)| ==> '(' !in WhereWords(w)[i]
    ensures w.Some? ==> |WhereWords(w)| == 4 && Lower(WhereWords(w)[0]) == "where" && AllPassed(WhereWords(w)[1..])
    ensures w.Some? ==> WhereWords(w)[1..] == [w.value.column, "=", "?"]
  {
    hide Lower, IsWord, CleanName;
    if w.Some? {
      KeywordsAreWords();
      LowerKeywords();
      ComparisonPasses(w.value.column);
      CleanWord(w.value.column);
      assert '(' !in "WHERE" && '(' !in "=" && '(' !in "?";
    }
  }

  /** Every word of a clean read is a word, and none holds a parenthesis. */
  lemma QueryWordsFacts(r: Query)
    requires CleanQuery(r)
    ensures Words(QueryWords(r)) && forall i :: 0 <= i < |QueryWords(r)| ==> '(' !in QueryWords(r)[i]
  {
    hide Lower, IsWord, CleanName, HeadWords, WhereWords, OrderWords, LimitWords;
    HeadWordsFacts(r);
    WhereWordsFacts(r.where);
    LimitWordsFacts(r.limit);
  }

  /** The FROM keyword, the select list before it and the words behind it. */
  lemma FromSplits(q: string, r: Query)
    requires CleanQuery(r) && q == Join(QueryWords(r), " ")
    ensures var at, list := Find(Lower(q), " from "), Join(ProjectionWords(r.columns), " ");
            && at == Some(7 + |list|) && 13 + |list| <= |q|
            && q[..7 + |list|] == "SELECT " + list
            && q[13 + |list|..] == Join([r.table] + (WhereWords(r.where) + AfterWhere(r)), " ")
  {
    hide Lower, Find, Join, WhereWords, OrderWords, LimitWords, ProjectionWords, IsWord, CleanName, ListWord, HeadWords;
    var ws, n := QueryWords(r), |ProjectionWords(r.columns)|;
    HeadWordsFacts(r);
    QueryWordsFacts(r);
    var h := HeadWords(r);
    Assoc4(h, WhereWords(r.where), r.more, LimitWords(r.limit));
    HeadPrefix(ws, h, WhereWords(r.where) + AfterWhere(r), n, r.table);
    KeywordsAreWords();
    LowerKeywords();
    assert " " + "from" + " " == " from ";
    KeywordFound(q, ws, "from", n + 1);
    JoinConcat(["SELECT"], ProjectionWords(r.columns), " ");
    SelectHead(Join(ProjectionWords(r.columns), " "));
  }

  lemma SelectHead(list: string)
    ensures Join(["SELECT"], " ") + " " + list == "SELECT " + list
    ensures |"SELECT " + list| == 7 + |list| && |"from"| == 4
  {
    assert "SELECT" + " " == "SELECT ";
  }

  lemma HeadPrefix(ws: seq<string>, h: seq<string>, tail: seq<string>, n: nat, t: string)
    requires ws == h + tail && n >= 1 && |h| == n + 3 && h[n + 1] == "FROM" && h[n + 2] == t
    ensures ws[..n + 1] == h[..n + 1] && ws[n + 2..] == [t] + tail && ws[n + 1] == "FROM" && |ws| >= n + 3
    ensures forall i :: 1 <= i <= n ==> ws[i] == h[i]
  {
  }

  lemma SelectTableOfWords(q: string, from: nat, t: string, tail: seq<string>)
    requires from + 6 <= |q| && q[from + 6..] == Join([t] + tail, " ") && Words([t] + tail)
    ensures SelectTable(q, from) == t
  {
    hide Join, Find, Trim;
    var ws := [t] + tail;
    JoinWordsTrimmed(ws);
    TrimOfTrimmed(Join(ws, " "));
    FirstWord(ws);
    OneWord(ws);
  }

  lemma OneWord(ws: seq<string>)
    requires ws != []
    ensures |ws| == 1 ==> Join(ws, " ") == ws[0]
  {
  }

  lemma SelectListOfWords(q: string, list: string)
    requires 7 + |list| + 6 <= |q| && q[..7 + |list|] == "SELECT " + list && list != "" && Trimmed(list)
    ensures SelectList(q, 7 + |list|) == list
  {
    hide Trim;
    TrimOfTrimmed(list);
    assert q[7..7 + |list|] == q[..7 + |list|][7..] == list;
  }

  /** No WHERE clause: the search for the keyword fails. */
  lemma NoWhere(q: string, r: Query)
    requires CleanQuery(r) && q == Join(QueryWords(r), " ") && r.where.None?
    ensures Find(Lower(q), " where ") == None
  {
    hide Lower, Find, Join, OrderWords, LimitWords, IsWord, CleanName, HeadWords;
    var ws, h := QueryWords(r), HeadWords(r);
    HeadWordsFacts(r);
    QueryWordsFacts(r);
    LimitWordsFacts(r.limit);
    KeywordsAreWords();
    assert h + [] == h;
    forall i | 0 <= i < |ws|
      ensures Lower(ws[i]) != "where"
    {
      assert ws == h + r.more + LimitWords(r.limit);
      assert i < |h| ==> Passed(h[i]);
    }
    assert " " + "where" + " " == " where ";
    KeywordAbsent(q, ws, "where");
  }

  /** The WHERE keyword and the words behind it. */
  lemma WhereFound(q: string, r: Query)
    requires CleanQuery(r) && q == Join(QueryWords(r), " ") && r.where.Some?
    ensures Find(Lower(q), " where ").Some?
    ensures var at := Find(Lower(q), " where ").value;
            at + 7 <= |q| && q[at + 7..] == Join([r.where.value.column, "=", "?"] + AfterWhere(r), " ")
  {
    hide Lower, Find, Join, OrderWords, LimitWords, IsWord, CleanName, HeadWords, WhereWords;
    var ws, h, w := QueryWords(r), HeadWords(r), WhereWords(r.where);
    HeadWordsFacts(r);
    QueryWordsFacts(r);
    WhereWordsFacts(r.where);
    KeywordsAreWords();
    Assoc4(h, w, r.more, LimitWords(r.limit));
    var tail := AfterWhere(r);
    assert ws == h + (w + tail);
    forall i | 1 <= i < |h|
      ensures Lower(ws[i]) != "where"
    {
      assert Passed(h[i]);
    }
    assert ws[|h|] == w[0];
    assert " " + "where" + " " == " where ";
    KeywordFound(q, ws, "where", |h|);
    assert ws[|h| + 1..] == w[1..] + tail;
  }

  // ---------------------------------------------------------------- the comparison

  /** The text behind WHERE, cut at LIMIT, starts with the column and `= ?`. */
  lemma LimitCut(c: string, more: seq<string>, l: Option<nat>)
    requires CleanName(c) && AllPassed(more)
    ensures var whole := Join([c, "=", "?"] + (more + LimitWords(l)), " ");
            && Trim(whole) == whole
            && var at := Find(Lower(whole), " limit ");
               (if at.Some? then at.value <= |whole| && Trim(whole[..at.value]) == Join([c, "=", "?"] + more, " ")
                else whole == Join([c, "=", "?"] + more, " "))
  {
    hide Lower, Find, Join, OrderWords, LimitWords, IsWord, CleanName, Trim;
    var cmp := [c, "=", "?"] + more;
    var ws := [c, "=", "?"] + (more + LimitWords(l));
    ComparisonPasses(c);
    LimitWordsFacts(l);
    Assoc3([c, "=", "?"], more, LimitWords(l));
    assert Words(ws) && Words(cmp);
    JoinWordsTrimmed(ws);
    JoinWordsTrimmed(cmp);
    TrimOfTrimmed(Join(ws, " "));
    TrimOfTrimmed(Join(cmp, " "));
    KeywordsAreWords();
    assert " " + "limit" + " " == " limit ";
    LimitWordsCount(l);
    if l.Some? {
      forall i | 1 <= i < |cmp|
        ensures Lower(ws[i]) != "limit"
      {
        assert Passed(cmp[i]);
      }
      assert ws[|cmp|] == LimitWords(l)[0];
      KeywordFound(Join(ws, " "), ws, "limit", |cmp|);
      assert ws[..|cmp|] == cmp;
    } else {
      assert ws == cmp;
      forall i | 1 <= i < |ws| - 1
        ensures Lower(ws[i]) != "limit"
      {
        assert Passed(cmp[i]);
      }
      KeywordAbsent(Join(ws, " "), ws, "limit");
    }
  }

  lemma LimitWordsCount(l: Option<nat>)
    ensures |LimitWords(l)| == if l.Some? then 2 else 0
  {
  }

  /** Reading `c = ?` with whatever words behind it: the column is `c` and the value is a parameter. */
  lemma ComparisonRead(clause: string, c: string, tail: seq<string>)
    requires CleanName(c) && Words(tail) && clause == Join([c, "=", "?"] + tail, " ")
    ensures Find(clause, "=") == Some(|c| + 1)
    ensures |c| + 2 <= |clause| && AfterLastDot(Trim(clause[..|c| + 1])) == c
    ensures var rhs := Trim(clause[|c| + 2..]); rhs != "" && rhs[0] == '?'
  {
    hide Find, Join, CleanName, Trim, FindFrom;
    var r := Join(["?"] + tail, " ");
    KeywordsAreWords();
    ComparisonText(clause, c, tail);
    CleanWord(c);
    CleanNameFacts(c);
    assert clause == c + " " + "=" + (" " + r);
    SliceMiddle(c + " ", "=", " " + r);
    assert (c + " ")[|c|] == ' ';
    FindChar(clause, '=', 0, |c| + 1);
    TrimPadded("", c, " ");
    assert "" + c + " " == c + " ";
    JoinWordsTrimmed(["?"] + tail);
    TrimPadded(" ", r, "");
    assert " " + r + "" == " " + r;
    NoDot(c);
  }

  lemma NoDot(c: string)
    requires '.' !in c
    ensures AfterLastDot(c) == c
  {
  }

  lemma ComparisonText(clause: string, c: string, tail: seq<string>)
    requires clause == Join([c, "=", "?"] + tail, " ")
    ensures clause == c + " " + "=" + (" " + Join(["?"] + tail, " "))
  {
    var ws := [c, "=", "?"] + tail;
    assert ws[1..] == ["=", "?"] + tail;
    assert (["=", "?"] + tail)[1..] == ["?"] + tail;
    Assoc3(c + " ", "=", " " + Join(["?"] + tail, " "));
    Assoc3("=", " ", Join(["?"] + tail, " "));
  }

  /** What the WHERE scan makes of a clean read. */
  lemma ParseWhereOfRead(q: string, r: Query, params: seq<string>)
    requires CleanQuery(r) && q == Join(QueryWords(r), " ")
    ensures ParseWhere(q, params)
            == if r.where.None? then Everything
               else if params == [] then Unbound
               else Equals(r.where.value.column, params[0])
  {
    hide Lower, Find, Join, OrderWords, LimitWords, IsWord, CleanName, HeadWords, WhereWords, Trim, AfterLastDot, QueryWords, UnquoteLiteral;
    if r.where.None? {
      NoWhere(q, r);
    } else {
      var c := r.where.value.column;
      WhereFound(q, r);
      LimitCut(c, r.more, r.limit);
        ComparisonRead(Join([c, "=", "?"] + r.more, " "), c, r.more);
    }
  }

  // ---------------------------------------------------------------- the select list

  lemma SelectColumnOfName(c: string)
    requires CleanName(c)
    ensures SelectColumn(c) == c
  {
    hide CleanName, Lower, Find, Trim, AfterLastDot;
    CleanNameFacts(c);
    CleanWord(c);
    assert " as "[0] == ' ';
    FindAbsent(c, " as ", 0);
    NoDot(c);
  }

  lemma SelectColumnsOfNames(cs: seq<string>)
    requires CleanList(cs)
    ensures SelectColumns(cs) == cs
  {
    forall i | 0 <= i < |cs|
      ensures SelectColumn(cs[i]) == cs[i]
    {
      SelectColumnOfName(cs[i]);
    }
  }

  function ProjectionOf(columns: Option<seq<string>>): Projection {
    if columns.None? || columns.value == [] then None else columns
  }

  /** The select list of a clean read is read back as its columns. */
  lemma ListRead(columns: Option<seq<string>>)
    requires CleanColumns(columns)
    ensures var list := Join(ProjectionWords(columns), " ");
            && list != "" && Trimmed(list) && list[0] != '1'
            && (if list == "*" then None else Some(SelectColumns(SplitCommas(list, false, "")))) == ProjectionOf(columns)
  {
    hide SplitCommas, SelectColumns, CleanName, Trimmed, Join;
    if columns.Some? && columns.value != [] {
      JoinCommaWords(columns.value);
      ColumnListRead(columns.value);
    } else {
      StarIsTrimmed();
      OneStar();
    }
  }

  lemma OneStar()
    ensures Join(["*"], " ") == "*"
  {
  }

  lemma ColumnListRead(cs: seq<string>)
    requires cs != [] && CleanColumns(Some(cs))
    ensures var list := Join(cs, ", ");
            && list != "" && Trimmed(list) && list[0] != '1' && list[0] != '*'
            && SelectColumns(SplitCommas(list, false, "")) == cs
  {
    CleanNameStarts(cs[0]);
    hide *;
    SplitOfList(cs);
    SelectColumnsOfNames(cs);
    JoinTrimmed(cs);
  }

  lemma StarIsTrimmed()
    ensures Trimmed("*") && "*" != "" && "*"[0] != '1'
  {
  }

  /** Nothing in a clean read looks like an aggregate. */
  lemma NoCount(q: string, r: Query)
    requires CleanQuery(r) && q == Join(QueryWords(r), " ")
    ensures Find(Lower(q), "count(*)") == None
  {
    hide Find, Join, IsWord, CleanName, QueryWords;
    QueryWordsFacts(r);
    JoinAvoids(QueryWords(r), " ", '(');
    assert "count(*)"[5] == '(';
    assert forall i :: 0 <= i < |q| ==> ToLower(q[i]) != '(';
    FindAbsent(Lower(q), "count(*)", 5);
  }

  /** How a clean read starts, and that it survives the trimming. */
  lemma ReadStarts(q: string, r: Query)
    requires CleanQuery(r) && q == Join(QueryWords(r), " ")
    ensures StartsWith(Lower(q), "select") && !StartsWith(Lower(q), "select 1")
    ensures StripTail(q) == q && TrimSql(q) == q
  {
    hide Join, Find, CleanName, QueryWords, TrimSql, StripTail, ProjectionWords, CleanColumns, StartsWith, Lower, Trimmed, Words,
         CleanWhere, WhereWords, AfterWhere, IsSpace;
    var list := Join(ProjectionWords(r.columns), " ");
    FromSplits(q, r);
    ListRead(r.columns);
    SelectPrefix(q, list);
    QueryWordsFacts(r);
    var ws := QueryWords(r);
    ReadEnds(r);
    JoinWordsTrimmed(ws);
    SolidText(q);
  }

  lemma SelectPrefix(q: string, list: string)
    requires list != "" && list[0] != '1' && 7 + |list| <= |q| && q[..7 + |list|] == "SELECT " + list
    ensures StartsWith(Lower(q), "select") && !StartsWith(Lower(q), "select 1") && q[0] == 'S'
  {
    assert q[..6] == q[..7 + |list|][..6] == "SELECT";
    assert Lower(q)[..6] == Lower(q[..6]);
    assert Lower("SELECT") == "select";
    assert q[7] == q[..7 + |list|][7] == list[0];
    assert ToLower(list[0]) != '1';
    assert "select 1"[7] == '1';
    assert |q| >= 8 ==> Lower(q)[..8][7] == Lower(q)[7];
  }

  /** The last word of a clean read does not end in a semicolon. */
  lemma ReadEnds(r: Query)
    requires CleanQuery(r)
    ensures var ws := QueryWords(r); var l := ws[|ws| - 1]; ws != [] && l != "" && l[|l| - 1] != ';'
  {
    hide CleanName, Decimal;
    CleanNameFacts(r.table);
    assert r.table[|r.table| - 1] != ';';
    if r.limit.Some? {
      var d := Decimal(r.limit.value);
      assert IsDigit(d[|d| - 1]);
    }
  }

  /** `exec_select` on a clean read: filter and project the table, unless the parameter is missing. */
  lemma ExecSelectOfRead(q: string, r: Query, tables: Tables, params: seq<string>)
    requires CleanQuery(r) && q == Join(QueryWords(r), " ")
    requires StartsWith(Lower(TrimSql(q)), "select")
    ensures ExecSelect(tables, q, params)
            == if r.where.Some? && params == [] then Outcome(NOTHING, tables)
               else
                 var f := if r.where.None? then Everything else Equals(r.where.value.column, params[0]);
                 Outcome(ExecResult(FilterProject(RowsOf(tables, r.table), f, ProjectionOf(r.columns)), 0), Touch(tables, r.table))
  {
    hide Join, Find, CleanName, QueryWords, TrimSql, StripTail, ProjectionWords, ParseWhere, SelectTable, SelectList, Lower,
         SplitCommas, SelectColumns, FilterProject, Trimmed;
    var list := Join(ProjectionWords(r.columns), " ");
    ReadStarts(q, r);
    FromSplits(q, r);
    ParseWhereOfRead(q, r, params);
    ListRead(r.columns);
    SelectListOfWords(q, list);
    TailIsWords(r);
    SelectTableOfWords(q, 7 + |list|, r.table, WhereWords(r.where) + AfterWhere(r));
    NoCount(q, r);
  }

  lemma TailIsWords(r: Query)
    requires CleanQuery(r)
    ensures Words([r.table] + (WhereWords(r.where) + AfterWhere(r)))
  {
    hide CleanName, IsWord, Lower, WhereWords, OrderWords, LimitWords;
    CleanWord(r.table);
    WhereWordsFacts(r.where);
    LimitWordsFacts(r.limit);
  }

  /** The executor on the words of a SELECT. */
  lemma ExecQuery(r: Query, tables: Tables, params: seq<string>, writable: bool)
    requires CleanQuery(r)
    ensures var q := Join(QueryWords(r), " ");
            && StripTail(q) == q
            && Exec(tables, q, params, writable)
               == if r.where.Some? && params == [] then Outcome(NOTHING, tables)
                  else
                    var f := if r.where.None? then Everything else Equals(r.where.value.column, params[0]);
                    Outcome(ExecResult(FilterProject(RowsOf(tables, r.table), f, ProjectionOf(r.columns)), 0), Touch(tables, r.table))
  {
    hide Join, CleanQuery, QueryWords, TrimSql, StripTail, Lower, ExecSelect, FilterProject, ProjectionOf;
    var q := Join(QueryWords(r), " ");
    ReadStarts(q, r);
    ExecSelectOfRead(q, r, tables, params);
  }

  /** The executor on a lowered read. */
  lemma ExecLoweredRead(t: string, s: Stmt, tables: Tables, params: seq<string>, writable: bool)
    requires s.Read? && CleanName(t) && CleanStmt(s)
    ensures StripTail(FlatText(t, s)) == FlatText(t, s)
    ensures Exec(tables, StripTail(FlatText(t, s)), params, writable)
            == if s.where.Some? && params == [] then Outcome(NOTHING, tables)
               else
                 var f := if s.where.None? then Everything else Equals(s.where.value.column, params[0]);
                 Outcome(ExecResult(FilterProject(RowsOf(tables, t), f, ProjectionOf(s.columns)), 0), Touch(tables, t))
  {
    hide Join, CleanName, QueryWords, StripTail, FlatText, FilterProject, Exec, AllPassed;
    ReadTextIsWords(t, s);
    OrderWordsPass(s.order);
    OrderEnds(s.order);
    ExecQuery(QueryOf(t, s), tables, params, writable);
  }

  lemma OrderEnds(o: Option<Ordering>)
    ensures var ws := OrderWords(o); ws != [] ==> NoSemicolon(ws[|ws| - 1])
  {
  }
}
