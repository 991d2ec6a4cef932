/** The registry's statement parser over the lexer, and the statements it reads back from print. */
module SqlParser {
  import opened Text
  import opened Flatten
  import opened SqlLexer

  datatype Statement =
    | SelectStmt(table: string, columns: seq<string>)
    | InsertStmt(table: string, columns: seq<string>, values: seq<string>)

  type Tok = (TokenKind, string)

  const END: Tok := (Eof, "")

  function Head(ts: seq<Tok>): Tok {
    if ts == [] then END else ts[0]
  }

  function Tail(ts: seq<Tok>): seq<Tok> {
    if ts == [] then [] else ts[1..]
  }

  // ---------------------------------------------------------------- what is parsed

  /** A list up to its closing parenthesis; any token serves as an item. */
  function ListItems(ts: seq<Tok>, acc: seq<string>): Option<(seq<string>, seq<Tok>)>
    decreases |ts|
  {
    var items, rest := acc + [Head(ts).1], Tail(ts);
    if Head(rest).0 == RParen then Some((items, Tail(rest)))
    else if Head(rest).0 == Comma then ListItems(Tail(rest), items)
    else None
  }

  /** The select list, and the tokens from the first one that is no comma on. */
  function SelectItems(ts: seq<Tok>, acc: seq<string>): (seq<string>, seq<Tok>)
    decreases |ts|
  {
    var items, rest := acc + [Head(ts).1], Tail(ts);
    if Head(rest).0 == Comma then SelectItems(Tail(rest), items) else (items, rest)
  }

  function ParseInsert(ts: seq<Tok>): Option<Statement> {
    if Head(ts).0 != KwInto then None
    else
      var table, rest := Head(Tail(ts)).1, Tail(Tail(ts));
      if Head(rest).0 != LParen then None
      else
        var columns := ListItems(Tail(rest), []);
        if columns.None? || Head(columns.value.1).0 != KwValues || Head(Tail(columns.value.1)).0 != LParen then None
        else
          var values := ListItems(Tail(Tail(columns.value.1)), []);
          if values.None? then None else Some(InsertStmt(table, columns.value.0, values.value.0))
  }

  function ParseSelect(ts: seq<Tok>): Option<Statement> {
    var list := if Head(ts).0 == Star then (["*"], Tail(ts)) else SelectItems(ts, []);
    if Head(list.1).0 != KwFrom then None else Some(SelectStmt(Head(Tail(list.1)).1, list.0))
  }

  function ParseToks(ts: seq<Tok>): Option<Statement> {
    if Head(ts).0 == KwInsert then ParseInsert(Tail(ts))
    else if Head(ts).0 == KwSelect then ParseSelect(Tail(ts))
    else None
  }

  function Toks(t: string): seq<Tok> {
    Plain(LexAll(t))
  }

  /** `parse_registry_statement`. */
  function ParseStatement(sql: string): Option<Statement> {
    ParseToks(Toks(FlattenParser(sql)))
  }

  // ---------------------------------------------------------------- the parser as written

  /** `next` takes the head off the stream. */
  method Take(lexer: Lexer) returns (t: Token)
    requires lexer.Valid()
    modifies lexer
    ensures lexer.Valid() && lexer.putback == None
    ensures (t.kind, t.text) == Head(old(lexer.Stream())) && lexer.Stream() == Tail(old(lexer.Stream()))
  {
    hide Scan, LexAll;
    StreamStep(lexer.input, lexer.pos);
    ScanEof(lexer.input[lexer.pos..]);
    ghost var old0 := lexer.Stream();
    ghost var rest := Plain(LexAll(lexer.input[lexer.pos..]));
    t := lexer.Next();
    assert [] + Plain(LexAll(lexer.input[lexer.pos..])) == Plain(LexAll(lexer.input[lexer.pos..]));
    assert old(lexer.putback).None? ==> old0 == rest;
    if t.kind == Eof && old(lexer.putback).None? {
      AtEnd(lexer.input, lexer.pos);
    }
  }

  lemma ScanEof(t: string)
    ensures Scan(t).kind == Eof ==> Scan(t).text == "" && Scan(t).blanks == |t| && Scan(t).size == 0
  {
    hide ScanSolid, Blanks;
  }

  lemma AtEnd(input: string, p: nat)
    requires p == |input|
    ensures Plain(LexAll(input[p..])) == []
  {
    assert input[p..] == "" && Blanks("") == 0;
  }

  /** `put_back` of the token just taken. */
  method GiveBack(lexer: Lexer, t: Token)
    requires lexer.Valid() && lexer.putback == None
    modifies lexer
    ensures lexer.Valid()
    ensures Head(lexer.Stream()) == (t.kind, t.text) && Tail(lexer.Stream()) == old(lexer.Stream())
  {
    hide LexAll;
    ghost var rest := Plain(LexAll(lexer.input[lexer.pos..]));
    assert [] + rest == rest;
    lexer.PutBack(t);
    assert ([(t.kind, t.text)] + rest)[1..] == rest;
  }

  method ParseList(lexer: Lexer) returns (items: Option<seq<string>>)
    requires lexer.Valid()
    modifies lexer
    ensures lexer.Valid()
    ensures var r := ListItems(old(lexer.Stream()), []);
            if items.None? then r.None? else r == Some((items.value, lexer.Stream())) && lexer.putback == None
  {
    var acc := [];
    while true
      invariant lexer.Valid() && ListItems(lexer.Stream(), acc) == ListItems(old(lexer.Stream()), [])
      decreases |lexer.Stream()|
    {
      var item := Take(lexer);
      acc := acc + [item.text];
      var sep := Take(lexer);
      if sep.kind == RParen {
        break;
      }
      if sep.kind != Comma {
        return None;
      }
    }
    items := Some(acc);
  }

  method ParseRegistryStatement(sql: string) returns (r: Option<Statement>)
    ensures r == ParseStatement(sql)
  {
    hide FlattenParser, LexAll, ListItems, SelectItems;
    var flat := FlattenParser(sql);
    var lexer := new Lexer(flat);
    assert flat[0..] == flat && [] + Toks(flat) == Toks(flat);
    var head := Take(lexer);
    if head.kind == KwInsert {
      r := ParseInsertWith(lexer);
    } else if head.kind == KwSelect {
      r := ParseSelectWith(lexer);
    } else {
      r := None;
    }
  }

  method ParseInsertWith(lexer: Lexer) returns (r: Option<Statement>)
    requires lexer.Valid()
    modifies lexer
    ensures r == ParseInsert(old(lexer.Stream()))
  {
    hide LexAll, ListItems;
    var into := Take(lexer);
    if into.kind != KwInto {
      return None;
    }
    var table := Take(lexer);
    var open := Take(lexer);
    if open.kind != LParen {
      return None;
    }
    var columns := ParseList(lexer);
    if columns.None? {
      return None;
    }
    var values := Take(lexer);
    if values.kind != KwValues {
      return None;
    }
    var valOpen := Take(lexer);
    if valOpen.kind != LParen {
      return None;
    }
    var vals := ParseList(lexer);
    if vals.None? {
      return None;
    }
    r := Some(InsertStmt(table.text, columns.value, vals.value));
  }

  lemma SelectFromHeadAndTail(a: seq<Tok>, b: seq<Tok>, acc: seq<string>)
    requires Head(a) == Head(b) && Tail(a) == Tail(b)
    ensures SelectItems(a, acc) == SelectItems(b, acc)
  {
  }

  method ParseSelectWith(lexer: Lexer) returns (r: Option<Statement>)
    requires lexer.Valid()
    modifies lexer
    ensures r == ParseSelect(old(lexer.Stream()))
  {
    ghost var ts := lexer.Stream();
    ghost var list := if Head(ts).0 == Star then (["*"], Tail(ts)) else SelectItems(ts, []);
    var columns := [];
    var col := Take(lexer);
    if col.kind == Star {
      columns := ["*"];
    } else {
      GiveBack(lexer, col);
      SelectFromHeadAndTail(lexer.Stream(), ts, []);
      while true
        invariant lexer.Valid() && SelectItems(lexer.Stream(), columns) == list
        decreases |lexer.Stream()|
      {
        hide LexAll;
        var item := Take(lexer);
        columns := columns + [item.text];
        ghost var rest := lexer.Stream();
        var sep := Take(lexer);
        if sep.kind != Comma {
          GiveBack(lexer, sep);
          break;
        }
      }
    }
    r := FinishSelect(lexer, columns, list);
  }

  method FinishSelect(lexer: Lexer, columns: seq<string>, ghost list: (seq<string>, seq<Tok>)) returns (r: Option<Statement>)
    requires lexer.Valid() && columns == list.0
    requires Head(lexer.Stream()) == Head(list.1) && Tail(lexer.Stream()) == Tail(list.1)
    modifies lexer
    ensures r == if Head(list.1).0 != KwFrom then None else Some(SelectStmt(Head(Tail(list.1)).1, list.0))
  {
    var from := Take(lexer);
    if from.kind != KwFrom {
      return None;
    }
    var table := Take(lexer);
    r := Some(SelectStmt(table.text, columns));
  }

  // ---------------------------------------------------------------- printing

  function QuoteAll(vs: seq<string>): (r: seq<string>)
    ensures |r| == |vs| && forall i :: 0 <= i < |vs| ==> r[i] == QuoteSql(vs[i])
  {
    seq(|vs|, i requires 0 <= i < |vs| => QuoteSql(vs[i]))
  }

  function Print(s: Statement): string {
    match s
    case SelectStmt(t, cs) => "SELECT " + (Join(cs, ", ") + (" FROM " + t))
    case InsertStmt(t, cs, vs) =>
      "INSERT INTO " + (t + (" (" + (Join(cs, ", ") + (") VALUES (" + (Join(QuoteAll(vs), ", ") + ")")))))
  }

  /** An identifier; keywords are taken as names too. */
  predicate SqlName(s: string) {
    s != "" && (IsAlpha(s[0]) || s[0] == '_') && forall i :: 0 <= i < |s| ==> IsWordChar(s[i])
  }

  predicate SqlNames(ss: seq<string>) {
    ss != [] && forall i :: 0 <= i < |ss| ==> SqlName(ss[i])
  }

  predicate Printable(s: Statement) {
    match s
    case SelectStmt(t, cs) => SqlName(t) && (cs == ["*"] || SqlNames(cs))
    case InsertStmt(t, cs, vs) => SqlName(t) && SqlNames(cs) && vs != []
  }

  predicate NulFree(vs: seq<string>) {
    forall i :: 0 <= i < |vs| ==> 0 as char !in vs[i]
  }

  // ---------------------------------------------------------------- tokens of a text, piece by piece

  lemma ToksStep(t: string)
    ensures var r := Scan(t);
            Toks(t) == if r.kind == Eof then [] else [(r.kind, r.text)] + Toks(t[r.blanks + r.size..])
  {
    hide Scan, LexAll;
    assert t[0..] == t;
    StreamStep(t, 0);
  }

  /** A solid piece in front is its token, then the tokens of the rest. */
  lemma ToksSolid(x: string, t: string, kind: TokenKind, text: string)
    requires x != "" && !IsBlank(x[0]) && kind != Eof
    requires ScanSolid(x + t) == (kind, text, |x|)
    ensures Toks(x + t) == [(kind, text)] + Toks(t)
  {
    hide ScanSolid, Scan, LexAll;
    SolidFront(x + t);
    ToksStep(x + t);
    assert (x + t)[|x|..] == t;
  }

  /** A blank in front makes no difference. */
  lemma ToksBlank(t: string)
    ensures Toks(" " + t) == Toks(t)
  {
    hide Scan, LexAll;
    ToksStep(" " + t);
    ToksStep(t);
    BlankInFront(t);
    var r := Scan(t);
    assert (" " + t)[r.blanks + 1 + r.size..] == t[r.blanks + r.size..];
  }

  lemma BlankInFront(t: string)
    ensures Scan(" " + t) == Scan(t).(blanks := Scan(t).blanks + 1)
  {
    hide ScanSolid;
    assert (" " + t)[0] == ' ' && (" " + t)[1..] == t;
    var b := Blanks(t);
    assert (" " + t)[b + 1..] == t[b..];
  }

  lemma ToksWord(w: string, t: string)
    requires SqlName(w) && (t == "" || !IsWordChar(t[0]))
    ensures Toks(w + t) == [(Keyword(w), w)] + Toks(t)
  {
    hide Keyword, WordRun, LexAll, DigitRun, NumberRun, QuotedRun;
    assert (w + t)[0] == w[0] && (w + t)[..|w|] == w;
    ToksSolid(w, t, Keyword(w), w);
  }

  lemma ToksSingle(c: char, t: string)
    requires IsSingle(c)
    ensures Toks([c] + t) == [(Single(c), [c])] + Toks(t)
  {
    hide LexAll, Keyword, WordRun, DigitRun, NumberRun, QuotedRun;
    assert ([c] + t)[0] == c;
    ToksSolid([c], t, Single(c), [c]);
  }

  lemma {:induction false} QuotedTextHasNoNul(t: string)
    ensures 0 as char !in QuotedRun(t).0
    decreases |t|
  {
    if t != "" && t[0] != 0 as char {
      if t[0] != '\'' {
        QuotedTextHasNoNul(t[1..]);
      } else if |t| > 1 && t[1] == '\'' {
        QuotedTextHasNoNul(t[2..]);
      }
    }
  }

  /** A literal in front: its value is read, and what follows is next, exactly when it holds no NUL. */
  lemma ToksQuoted(v: string, t: string)
    requires t == "" || t[0] != '\''
    ensures 0 as char !in v ==> Toks(QuoteSql(v) + t) == [(String, v)] + Toks(t)
    ensures 0 as char in v ==> Head(Toks(QuoteSql(v) + t)).1 != v
  {
    hide LexAll, QuotedRun, Doubled;
    var u := QuoteSql(v) + t;
    QuotedLiteralRoundTrip(v, t);
    assert u[0] == '\'';
    SolidFront(u);
    ToksStep(u);
    QuotedTextHasNoNul(u[1..]);
    assert u[|QuoteSql(v)|..] == t;
  }

  // ---------------------------------------------------------------- lists

  function NameToks(ws: seq<string>): (r: seq<Tok>)
    ensures |r| == |ws| && forall i :: 0 <= i < |ws| ==> r[i] == (Keyword(ws[i]), ws[i])
  {
    seq(|ws|, i requires 0 <= i < |ws| => (Keyword(ws[i]), ws[i]))
  }

  /** Tokens with commas between them. */
  function WithCommas(items: seq<Tok>): seq<Tok> {
    if |items| <= 1 then items else [items[0], (Comma, ",")] + WithCommas(items[1..])
  }

  function Texts(items: seq<Tok>): (r: seq<string>)
    ensures |r| == |items| && forall i :: 0 <= i < |items| ==> r[i] == items[i].1
  {
    seq(|items|, i requires 0 <= i < |items| => items[i].1)
  }

  lemma {:induction false} ToksNames(ws: seq<string>, t: string)
    requires SqlNames(ws) && (t == "" || !IsWordChar(t[0]))
    ensures Toks(Join(ws, ", ") + t) == WithCommas(NameToks(ws)) + Toks(t)
    decreases |ws|
  {
    hide Toks, SqlName, Keyword;
    if |ws| == 1 {
      ToksWord(ws[0], t);
      assert NameToks(ws) == [(Keyword(ws[0]), ws[0])];
    } else {
      var rest := Join(ws[1..], ", ") + t;
      Assoc4(ws[0], ", ", Join(ws[1..], ", "), t);
      ToksWord(ws[0], ", " + rest);
      CommaBlank(rest);
      ToksNames(ws[1..], t);
      assert NameToks(ws)[1..] == NameToks(ws[1..]) && NameToks(ws)[0] == (Keyword(ws[0]), ws[0]);
      var more := WithCommas(NameToks(ws[1..]));
      assert [(Keyword(ws[0]), ws[0])] + ([(Comma, ",")] + (more + Toks(t))) == [(Keyword(ws[0]), ws[0]), (Comma, ",")] + more + Toks(t);
    }
  }

  lemma CommaBlank(t: string)
    ensures Toks(", " + t) == [(Comma, ",")] + Toks(t)
    ensures (", " + t)[0] == ','
  {
    hide Toks;
    assert ", " + t == [','] + (" " + t);
    ToksSingle(',', " " + t);
    ToksBlank(t);
  }

  /** A list with its closing parenthesis is read back item by item. */
  lemma {:induction false} ListBack(items: seq<Tok>, t: seq<Tok>, acc: seq<string>)
    requires items != []
    ensures ListItems(WithCommas(items) + ([(RParen, ")")] + t), acc) == Some((acc + Texts(items), t))
    decreases |items|
  {
    var close := [(RParen, ")")] + t;
    var ts := WithCommas(items) + close;
    assert Texts(items) == [items[0].1] + Texts(items[1..]);
    assert ts[0] == items[0];
    if |items| == 1 {
      assert ts[1..] == close && close[1..] == t;
      assert Texts(items[1..]) == [];
      assert Texts(items) == [items[0].1];
    } else {
      var more := WithCommas(items[1..]) + close;
      assert ts[1..] == [(Comma, ",")] + more && ([(Comma, ",")] + more)[1..] == more;
      ListBack(items[1..], t, acc + [items[0].1]);
      Assoc3(acc, [items[0].1], Texts(items[1..]));
    }
  }

  lemma {:induction false} SelectBack(items: seq<Tok>, t: seq<Tok>, acc: seq<string>)
    requires items != [] && t != [] && t[0].0 != Comma
    ensures SelectItems(WithCommas(items) + t, acc) == (acc + Texts(items), t)
    decreases |items|
  {
    var ts := WithCommas(items) + t;
    assert Texts(items) == [items[0].1] + Texts(items[1..]);
    assert ts[0] == items[0];
    if |items| == 1 {
      assert ts[1..] == t;
      assert Texts(items[1..]) == [];
      assert Texts(items) == [items[0].1];
    } else {
      var more := WithCommas(items[1..]) + t;
      assert ts[1..] == [(Comma, ",")] + more && ([(Comma, ",")] + more)[1..] == more;
      SelectBack(items[1..], t, acc + [items[0].1]);
      Assoc3(acc, [items[0].1], Texts(items[1..]));
    }
  }

  lemma {:induction false} ListKeepsItems(ts: seq<Tok>, acc: seq<string>)
    ensures ListItems(ts, acc).Some? ==> acc + [Head(ts).1] <= ListItems(ts, acc).value.0
    decreases |ts|
  {
    var items, rest := acc + [Head(ts).1], Tail(ts);
    if Head(rest).0 != RParen && Head(rest).0 == Comma {
      ListKeepsItems(Tail(rest), items);
    }
  }

  /** A list of literals is read back exactly when none holds a NUL. */
  lemma {:induction false} ValuesBack(vs: seq<string>, acc: seq<string>)
    requires vs != []
    ensures
      var r := ListItems(Toks(Join(QuoteAll(vs), ", ") + ")"), acc);
      (r.Some? && r.value.0 == acc + vs) <==> NulFree(vs)
    decreases |vs|
  {
    hide Toks, QuoteSql;
    var t := if |vs| == 1 then ")" else ", " + (Join(QuoteAll(vs[1..]), ", ") + ")");
    var text := Join(QuoteAll(vs), ", ") + ")";
    ValuesText(vs);
    ToksQuoted(vs[0], t);
    var ts := Toks(text);
    assert acc + vs == acc + [vs[0]] + vs[1..];
    if 0 as char in vs[0] {
      ListKeepsItems(ts, acc);
      assert (acc + vs)[|acc|] == vs[0];
      assert !NulFree(vs);
    } else {
      assert NulFree(vs) <==> NulFree(vs[1..]) by {
        assert forall i :: 1 <= i < |vs| ==> vs[i] == vs[1..][i - 1];
      }
      assert ts[1..] == Toks(t);
      if |vs| == 1 {
        CloseToks();
        assert acc + vs == acc + [vs[0]];
      } else {
        var rest := Join(QuoteAll(vs[1..]), ", ") + ")";
        CommaBlank(rest);
        assert ([(Comma, ",")] + Toks(rest))[1..] == Toks(rest);
        ValuesBack(vs[1..], acc + [vs[0]]);
      }
    }
  }

  lemma ValuesText(vs: seq<string>)
    requires vs != []
    ensures
      var t := if |vs| == 1 then ")" else ", " + (Join(QuoteAll(vs[1..]), ", ") + ")");
      Join(QuoteAll(vs), ", ") + ")" == QuoteSql(vs[0]) + t && t[0] != '\''
  {
    hide QuoteSql;
    if |vs| > 1 {
      assert QuoteAll(vs)[1..] == QuoteAll(vs[1..]);
      Assoc4(QuoteSql(vs[0]), ", ", Join(QuoteAll(vs[1..]), ", "), ")");
    }
  }

  lemma CloseToks()
    ensures Toks(")") == [(RParen, ")")]
  {
    hide LexAll;
    assert [')'] + "" == ")";
    ToksSingle(')', "");
    AtEnd("", 0);
  }

  // ---------------------------------------------------------------- whole statements

  lemma NamesBack(ws: seq<string>)
    ensures Texts(NameToks(ws)) == ws
  {
    hide Keyword;
  }

  lemma KeywordsAreKeywords()
    ensures Keyword("SELECT") == KwSelect && Keyword("FROM") == KwFrom && Keyword("INSERT") == KwInsert
    ensures Keyword("INTO") == KwInto && Keyword("VALUES") == KwValues
    ensures SqlName("SELECT") && SqlName("FROM") && SqlName("INSERT") && SqlName("INTO") && SqlName("VALUES")
  {
    hide SqlName;
    KeywordsAreNames();
    assert Lower("SELECT") == "select" && Lower("FROM") == "from" && Lower("INSERT") == "insert";
    assert Lower("INTO") == "into" && Lower("VALUES") == "values";
  }

  lemma KeywordsAreNames()
    ensures SqlName("SELECT") && SqlName("FROM") && SqlName("INSERT") && SqlName("INTO") && SqlName("VALUES")
  {
  }

  /** A keyword between blanks. */
  lemma KeywordToks(w: string, t: string)
    requires SqlName(w)
    ensures Toks(w + (" " + t)) == [(Keyword(w), w)] + Toks(t)
    ensures Toks(" " + (w + (" " + t))) == [(Keyword(w), w)] + Toks(t)
  {
    hide Toks, Keyword;
    assert (" " + t)[0] == ' ';
    ToksWord(w, " " + t);
    ToksBlank(t);
    ToksBlank(w + (" " + t));
  }

  lemma SelectToks(t: string, cs: seq<string>)
    requires SqlName(t) && (cs == ["*"] || SqlNames(cs))
    ensures Toks(Print(SelectStmt(t, cs))) ==
            [(KwSelect, "SELECT")] + ((if cs == ["*"] then [(Star, "*")] else WithCommas(NameToks(cs))) +
                                      [(KwFrom, "FROM"), (Keyword(t), t)])
  {
    hide Toks, Keyword, Join, SqlName;
    KeywordsAreKeywords();
    var list, from := Join(cs, ", "), " " + ("FROM" + (" " + t));
    assert " FROM " + t == from by {
      assert " FROM " == " " + ("FROM" + " ");
      Assoc3(" ", "FROM" + " ", t);
      Assoc3("FROM", " ", t);
    }
    assert "SELECT " + (list + from) == "SELECT" + (" " + (list + from)) by {
      assert "SELECT " == "SELECT" + " ";
      Assoc3("SELECT", " ", list + from);
    }
    KeywordToks("SELECT", list + from);
    KeywordToks("FROM", t);
    assert t + "" == t;
    ToksWord(t, "");
    NothingToks();
    assert [(Keyword(t), t)] + [] == [(Keyword(t), t)];
    assert [(KwFrom, "FROM")] + [(Keyword(t), t)] == [(KwFrom, "FROM"), (Keyword(t), t)];
    assert from[0] == ' ';
    if cs == ["*"] {
      StarList();
      assert ['*'] + from == "*" + from;
      ToksSingle('*', from);
    } else {
      ToksNames(cs, from);
    }
  }

  lemma StarList()
    ensures Join(["*"], ", ") == "*"
  {
  }

  lemma NothingToks()
    ensures Toks("") == []
  {
    AtEnd("", 0);
  }

  lemma SelectIsParsed(t: string, cs: seq<string>)
    requires SqlName(t) && (cs == ["*"] || SqlNames(cs))
    ensures ParseToks(Toks(Print(SelectStmt(t, cs)))) == Some(SelectStmt(t, cs))
  {
    hide Toks, Keyword, WithCommas, SelectItems, SqlName;
    var from := [(KwFrom, "FROM"), (Keyword(t), t)];
    SelectToks(t, cs);
    var list := if cs == ["*"] then [(Star, "*")] else WithCommas(NameToks(cs));
    var ts := [(KwSelect, "SELECT")] + (list + from);
    assert ts[0] == (KwSelect, "SELECT") && ts[1..] == list + from;
    assert from[1..] == [(Keyword(t), t)];
    if cs == ["*"] {
      assert (list + from)[0] == (Star, "*") && (list + from)[1..] == from;
    } else {
      NamesBack(cs);
      SelectBack(NameToks(cs), from, []);
      assert [] + cs == cs;
      FirstIsNoStar(cs, from);
    }
  }

  lemma FirstIsNoStar(cs: seq<string>, t: seq<Tok>)
    requires cs != []
    ensures (WithCommas(NameToks(cs)) + t)[0] == (Keyword(cs[0]), cs[0]) && Keyword(cs[0]) != Star
  {
    hide Lower;
  }

  lemma InsertToks(t: string, cs: seq<string>, vs: seq<string>)
    requires SqlName(t) && SqlNames(cs)
    ensures Toks(Print(InsertStmt(t, cs, vs))) ==
            [(KwInsert, "INSERT"), (KwInto, "INTO"), (Keyword(t), t), (LParen, "(")] +
            (WithCommas(NameToks(cs)) +
             ([(RParen, ")")] + ([(KwValues, "VALUES"), (LParen, "(")] + Toks(Join(QuoteAll(vs), ", ") + ")"))))
  {
    hide Toks, Keyword, Join, SqlName, WithCommas;
    KeywordsAreKeywords();
    var values := Join(QuoteAll(vs), ", ") + ")";
    var behind := ") VALUES (" + values;
    var open := " (" + (Join(cs, ", ") + behind);
    InsertText(t, open);
    KeywordToks("INSERT", "INTO" + (" " + (t + open)));
    KeywordToks("INTO", t + open);
    assert open[0] == ' ';
    ToksWord(t, open);
    OpenToks(Join(cs, ", ") + behind);
    assert behind[0] == ')';
    ToksNames(cs, behind);
    ValuesToks(values);
    InsertShape([(KwInsert, "INSERT")], [(KwInto, "INTO")], [(Keyword(t), t)], [(LParen, "(")],
                WithCommas(NameToks(cs)) + ([(RParen, ")")] + ([(KwValues, "VALUES"), (LParen, "(")] + Toks(values))));
  }

  lemma InsertText(t: string, open: string)
    ensures "INSERT INTO " + (t + open) == "INSERT" + (" " + ("INTO" + (" " + (t + open))))
  {
    var x := t + open;
    assert "INSERT INTO " == "INSERT" + (" " + ("INTO" + " "));
    Assoc3("INSERT", " " + ("INTO" + " "), x);
    Assoc3(" ", "INTO" + " ", x);
    Assoc3("INTO", " ", x);
  }

  lemma OpenToks(x: string)
    ensures Toks(" (" + x) == [(LParen, "(")] + Toks(x)
  {
    hide Toks;
    assert " (" + x == " " + (['('] + x);
    ToksBlank(['('] + x);
    ToksSingle('(', x);
  }

  lemma ValuesToks(x: string)
    ensures Toks(") VALUES (" + x) == [(RParen, ")")] + ([(KwValues, "VALUES"), (LParen, "(")] + Toks(x))
  {
    hide Toks, Keyword, SqlName;
    KeywordsAreKeywords();
    var y := ['('] + x;
    assert ") VALUES (" == [')'] + (" " + ("VALUES" + (" " + ['('])));
    Assoc3([')'], " " + ("VALUES" + (" " + ['('])), x);
    Assoc3(" ", "VALUES" + (" " + ['(']), x);
    Assoc3("VALUES", " " + ['('], x);
    Assoc3(" ", ['('], x);
    ToksSingle(')', " " + ("VALUES" + (" " + y)));
    KeywordToks("VALUES", y);
    ToksSingle('(', x);
    Assoc3([(KwValues, "VALUES")], [(LParen, "(")], Toks(x));
    assert [(KwValues, "VALUES")] + [(LParen, "(")] == [(KwValues, "VALUES"), (LParen, "(")];
  }

  lemma InsertShape(a: seq<Tok>, b: seq<Tok>, c: seq<Tok>, d: seq<Tok>, e: seq<Tok>)
    requires |a| == |b| == |c| == |d| == 1
    ensures a + (b + (c + (d + e))) == [a[0], b[0], c[0], d[0]] + e
  {
  }

  /** The parser on the tokens of an insert whose columns have been read. */
  lemma ParseInsertOf(table: Tok, list: seq<Tok>, cs: seq<string>, values: seq<Tok>)
    requires ListItems(list, []) == Some((cs, [(KwValues, "VALUES"), (LParen, "(")] + values))
    ensures
      var vs := ListItems(values, []);
      ParseToks([(KwInsert, "INSERT"), (KwInto, "INTO"), table, (LParen, "(")] + list) ==
      if vs.None? then None else Some(InsertStmt(table.1, cs, vs.value.0))
  {
    hide ListItems;
    var ts := [(KwInsert, "INSERT"), (KwInto, "INTO"), table, (LParen, "(")] + list;
    var behind := [(KwValues, "VALUES"), (LParen, "(")] + values;
    assert ts[1..] == [(KwInto, "INTO"), table, (LParen, "(")] + list;
    assert ts[1..][1..] == [table, (LParen, "(")] + list;
    assert ts[1..][1..][1..] == [(LParen, "(")] + list;
    assert ts[1..][1..][1..][1..] == list;
    assert behind[1..] == [(LParen, "(")] + values && behind[1..][1..] == values;
  }

  /** An insert comes back exactly when no value holds a NUL. */
  lemma InsertIsParsed(t: string, cs: seq<string>, vs: seq<string>)
    requires SqlName(t) && SqlNames(cs) && vs != []
    ensures ParseToks(Toks(Print(InsertStmt(t, cs, vs)))) == Some(InsertStmt(t, cs, vs)) <==> NulFree(vs)
  {
    hide *;
    InsertToks(t, cs, vs);
    var values := Toks(Join(QuoteAll(vs), ", ") + ")");
    var behind := [(KwValues, "VALUES"), (LParen, "(")] + values;
    NamesBack(cs);
    NonEmptyNames(cs);
    ListBack(NameToks(cs), behind, []);
    assert [] + cs == cs;
    ParseInsertOf((Keyword(t), t), WithCommas(NameToks(cs)) + ([(RParen, ")")] + behind), cs, values);
    ValuesBack(vs, []);
    assert [] + vs == vs;
  }

  lemma NonEmptyNames(cs: seq<string>)
    requires SqlNames(cs)
    ensures cs != [] && NameToks(cs) != []
  {
  }

  /**
   Print and parse: any printable statement whose text the flattener leaves alone is
   read back as it was, if and only if no value of it holds a NUL.
   */
  lemma PrintParse(s: Statement)
    requires Printable(s) && FlattenParser(Print(s)) == Print(s)
    ensures ParseStatement(Print(s)) == Some(s) <==> (s.InsertStmt? ==> NulFree(s.values))
  {
    hide FlattenParser, Print, ParseToks, Toks;
    match s {
      case SelectStmt(t, cs) => SelectIsParsed(t, cs);
      case InsertStmt(t, cs, vs) => InsertIsParsed(t, cs, vs);
    }
  }

  /** The flattener leaves a text alone that holds no double quote, no dollar sign and no loose end. */
  lemma PlainTextIsLeftAlone(s: string)
    requires '"' !in s && '$' !in s && s != "" && !IsSpace(s[|s| - 1]) && s[|s| - 1] != ';'
    ensures FlattenParser(s) == s
  {
    PlainTextIsFixed(s);
  }

  /** Values that no pass of the flattener has anything to rewrite in. */
  predicate Unrewritten(vs: seq<string>) {
    forall i :: 0 <= i < |vs| ==> '"' !in vs[i] && '$' !in vs[i]
  }

  lemma NameAvoids(s: string, c: char)
    requires SqlName(s) && !IsWordChar(c)
    ensures c !in s
  {
    assert forall i :: 0 <= i < |s| ==> IsWordChar(s[i]);
  }

  lemma NamesAvoid(cs: seq<string>, c: char)
    requires (SqlNames(cs) || cs == ["*"]) && (c == '"' || c == '$')
    ensures c !in Join(cs, ", ")
  {
    forall i | 0 <= i < |cs|
      ensures c !in cs[i]
    {
      if SqlNames(cs) {
        NameAvoids(cs[i], c);
      }
    }
    JoinAvoids(cs, ", ", c);
  }

  lemma {:induction false} DoubledAvoids(v: string, c: char)
    requires c !in v && c != '\''
    ensures c !in Doubled(v)
  {
    if v != "" {
      DoubledAvoids(v[1..], c);
    }
  }

  lemma ValuesAvoid(vs: seq<string>, c: char)
    requires Unrewritten(vs) && (c == '"' || c == '$')
    ensures c !in Join(QuoteAll(vs), ", ")
  {
    forall i | 0 <= i < |vs|
      ensures c !in QuoteAll(vs)[i]
    {
      DoubledAvoids(vs[i], c);
    }
    JoinAvoids(QuoteAll(vs), ", ", c);
  }

  /** A printable statement whose values hold no double quote and no dollar sign is left alone. */
  lemma PrintIsLeftAlone(s: Statement)
    requires Printable(s) && (s.InsertStmt? ==> Unrewritten(s.values))
    ensures FlattenParser(Print(s)) == Print(s)
  {
    hide FlattenParser, Print;
    PrintAvoids(s, '"');
    PrintAvoids(s, '$');
    PrintEnds(s);
    PlainTextIsLeftAlone(Print(s));
  }

  lemma PrintAvoids(s: Statement, c: char)
    requires Printable(s) && (s.InsertStmt? ==> Unrewritten(s.values)) && (c == '"' || c == '$')
    ensures c !in Print(s)
  {
    hide Join, SqlNames, Unrewritten;
    match s {
      case SelectStmt(t, cs) =>
        NamesAvoid(cs, c);
        NameAvoids(t, c);
      case InsertStmt(t, cs, vs) =>
        NamesAvoid(cs, c);
        NameAvoids(t, c);
        ValuesAvoid(vs, c);
    }
  }

  lemma PrintEnds(s: Statement)
    requires Printable(s)
    ensures var text := Print(s); text != "" && !IsSpace(text[|text| - 1]) && text[|text| - 1] != ';'
  {
    hide Join, SqlNames;
    var text := Print(s);
    match s {
      case SelectStmt(t, cs) =>
        assert text[|text| - 1] == t[|t| - 1] && IsWordChar(t[|t| - 1]);
      case InsertStmt(t, cs, vs) =>
        assert text[|text| - 1] == ')';
    }
  }

  /**
   Print and parse with a check on the values alone: without double quotes and dollar
   signs a statement is read back as it was if and only if no value holds a NUL.
   */
  lemma PlainValuesPrintParse(s: Statement)
    requires Printable(s) && (s.InsertStmt? ==> Unrewritten(s.values))
    ensures ParseStatement(Print(s)) == Some(s) <==> (s.InsertStmt? ==> NulFree(s.values))
  {
    hide FlattenParser, Print, ParseStatement, Printable, Unrewritten, NulFree;
    PrintIsLeftAlone(s);
    PrintParse(s);
  }
}
