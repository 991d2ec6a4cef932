/** The SQL lexer: the object with its put-back slot, and what its tokens say about the text. */
module SqlLexer {
  import opened Text

  datatype TokenKind =
    | Eof | Ident | String | Number | Star | Comma | LParen | RParen | Semi | Eq
    | KwSelect | KwFrom | KwWhere | KwInsert | KwInto | KwValues

  datatype Token = Token(kind: TokenKind, text: string, pos: nat)

  // ---------------------------------------------------------------- scanning a suffix

  predicate IsBlank(c: char) {
    c == ' ' || c == '\t' || c == '\n' || c == '\r'
  }

  predicate IsWordChar(c: char) {
    IsAlpha(c) || IsDigit(c) || c == '_'
  }

  /** The blanks in front. */
  function Blanks(t: string): (n: nat)
    ensures n <= |t| && (forall i :: 0 <= i < n ==> IsBlank(t[i])) && (n < |t| ==> !IsBlank(t[n]))
  {
    if t == "" || !IsBlank(t[0]) then 0
    else
      var n := Blanks(t[1..]);
      assert forall i :: 1 <= i < n + 1 ==> t[i] == t[1..][i - 1];
      n + 1
  }

  function WordRun(t: string): (n: nat)
    ensures n <= |t| && (forall i :: 0 <= i < n ==> IsWordChar(t[i])) && (n < |t| ==> !IsWordChar(t[n]))
  {
    if t == "" || !IsWordChar(t[0]) then 0
    else
      var n := WordRun(t[1..]);
      assert forall i :: 1 <= i < n + 1 ==> t[i] == t[1..][i - 1];
      n + 1
  }

  function NumberRun(t: string): (n: nat)
    ensures DigitRun(t) <= n <= |t|
  {
    var n := DigitRun(t);
    if n < |t| && t[n] == '.' then n + 1 + DigitRun(t[n + 1..]) else n
  }

  /** Behind an opening quote: the text of the literal and how much of the input it takes. */
  function QuotedRun(t: string): (r: (string, nat))
    ensures r.1 <= |t|
    decreases |t|
  {
    if t == "" then ("", 0)
    else if t[0] == 0 as char then ("", 1)
    else if t[0] == '\'' then
      if |t| > 1 && t[1] == '\'' then
        var r := QuotedRun(t[2..]);
        (['\''] + r.0, r.1 + 2)
      else ("", 1)
    else
      var r := QuotedRun(t[1..]);
      ([t[0]] + r.0, r.1 + 1)
  }

  function Keyword(text: string): (k: TokenKind)
    ensures k != String && k != Eof
  {
    var l := Lower(text);
    if l == "select" then KwSelect else if l == "from" then KwFrom else if l == "where" then KwWhere
    else if l == "insert" then KwInsert else if l == "into" then KwInto else if l == "values" then KwValues else Ident
  }

  /** One token: its kind and text, the blanks before it and the length of its span. */
  datatype Scanned = Scanned(kind: TokenKind, text: string, blanks: nat, size: nat)

  /** Characters that are tokens of their own. */
  predicate IsSingle(c: char) {
    c == '*' || c == ',' || c == '(' || c == ')' || c == ';' || c == '=' || c == '?'
  }

  function Single(c: char): (k: TokenKind)
    ensures k != Eof && k != String
  {
    if c == '*' then Star else if c == ',' then Comma else if c == '(' then LParen else if c == ')' then RParen
    else if c == ';' then Semi else if c == '=' then Eq else Ident
  }

  function ScanSolid(u: string): (r: (TokenKind, string, nat))
    requires u != "" && !IsBlank(u[0])
    ensures 1 <= r.2 <= |u| && r.0 != Eof
  {
    var c := u[0];
    if IsSingle(c) then (Single(c), [c], 1)
    else if c == '$' && |u| > 1 && IsDigit(u[1]) then (Ident, u[..1 + DigitRun(u[1..])], 1 + DigitRun(u[1..]))
    else if c == '\'' then (String, QuotedRun(u[1..]).0, 1 + QuotedRun(u[1..]).1)
    else if IsDigit(c) then (Number, u[..NumberRun(u)], NumberRun(u))
    else if IsAlpha(c) || c == '_' then (Keyword(u[..WordRun(u)]), u[..WordRun(u)], WordRun(u))
    else (Ident, [c], 1)
  }

  /** What `next` finds at the front of the remaining input. */
  function Scan(t: string): (r: Scanned)
    ensures r.blanks + r.size <= |t|
    ensures r.kind == Eof <==> r.size == 0
    ensures r.kind == Eof ==> r.blanks == |t| && r.text == ""
  {
    var b := Blanks(t);
    if b == |t| then Scanned(Eof, "", b, 0)
    else
      var r := ScanSolid(t[b..]);
      Scanned(r.0, r.1, b, r.2)
  }

  /** The tokens up to the end of the input. */
  function LexAll(t: string): seq<Scanned>
    decreases |t|
  {
    var r := Scan(t);
    if r.kind == Eof then [] else [r] + LexAll(t[r.blanks + r.size..])
  }

  // ---------------------------------------------------------------- the object

  class Lexer {
    const input: string
    var pos: nat
    var putback: Option<Token>

    constructor (input: string)
      ensures this.input == input && pos == 0 && putback == None
    {
      this.input := input;
      pos, putback := 0, None;
    }

    ghost predicate Valid()
      reads this
    {
      pos <= |input|
    }

    /** NUL at the end of the input. */
    function Peek(): char
      requires Valid()
      reads this
    {
      if pos < |input| then input[pos] else 0 as char
    }

    method Get() returns (c: char)
      requires Valid()
      modifies this`pos
      ensures Valid() && c == old(Peek()) && pos == if old(pos) < |input| then old(pos) + 1 else old(pos)
    {
      if pos >= |input| {
        return 0 as char;
      }
      c := input[pos];
      pos := pos + 1;
    }

    method SkipSpace()
      requires Valid()
      modifies this`pos
      ensures Valid() && pos == old(pos) + Blanks(input[old(pos)..])
    {
      while pos < |input| && IsBlank(input[pos])
        invariant old(pos) <= pos <= |input|
        invariant pos + Blanks(input[pos..]) == old(pos) + Blanks(input[old(pos)..])
      {
        assert input[pos..][0] == input[pos] && input[pos..][1..] == input[pos + 1..];
        pos := pos + 1;
      }
    }

    /** The digit loops, appending to `text`. */
    method TakeDigits(before: string) returns (text: string)
      requires Valid()
      modifies this`pos
      ensures Valid() && pos == old(pos) + DigitRun(input[old(pos)..])
      ensures text == before + input[old(pos)..pos]
    {
      text := before;
      while pos < |input| && IsDigit(input[pos])
        invariant old(pos) <= pos <= |input| && text == before + input[old(pos)..pos]
        invariant pos + DigitRun(input[pos..]) == old(pos) + DigitRun(input[old(pos)..])
      {
        assert input[pos..][0] == input[pos] && input[pos..][1..] == input[pos + 1..];
        var c := Get();
        assert input[old(pos)..pos] == input[old(pos)..pos - 1] + [c];
        text := text + [c];
      }
    }

    method ReadNumber() returns (t: Token)
      requires Valid() && pos < |input|
      modifies this`pos
      ensures Valid() && pos == old(pos) + NumberRun(input[old(pos)..])
      ensures t == Token(Number, input[old(pos)..pos], old(pos))
    {
      hide DigitRun;
      var start := pos;
      var text := TakeDigits("");
      assert text == input[start..pos];
      if Peek() == '.' {
        assert input[start..][pos - start] == '.' && input[start..][pos - start + 1..] == input[pos + 1..];
        var c := Get();
        text := text + [c];
        assert text == input[start..pos];
        ghost var mid := pos;
        text := TakeDigits(text);
        assert input[start..mid] + input[mid..pos] == input[start..pos];
      } else {
        assert pos < |input| ==> input[start..][pos - start] == input[pos];
      }
      t := Token(Number, text, start);
    }

    method ReadIdentOrKw() returns (t: Token)
      requires Valid() && pos < |input|
      modifies this`pos
      ensures Valid() && pos == old(pos) + WordRun(input[old(pos)..])
      ensures t == Token(Keyword(input[old(pos)..pos]), input[old(pos)..pos], old(pos))
    {
      var start := pos;
      var text := "";
      while pos < |input| && IsWordChar(input[pos])
        invariant start <= pos <= |input| && text == input[start..pos]
        invariant pos + WordRun(input[pos..]) == start + WordRun(input[start..])
      {
        assert input[pos..][0] == input[pos] && input[pos..][1..] == input[pos + 1..];
        var c := Get();
        text := text + [c];
      }
      t := Token(Keyword(text), text, start);
    }

    /** The loop over a quoted literal, behind its opening quote. */
    method ReadQuoted() returns (text: string)
      requires Valid()
      modifies this`pos
      ensures Valid() && (text, pos) == (QuotedRun(input[old(pos)..]).0, old(pos) + QuotedRun(input[old(pos)..]).1)
    {
      text := "";
      ghost var all := QuotedRun(input[pos..]);
      ghost var start := pos;
      assert "" + all.0 == all.0;
      while pos < |input|
        invariant start <= pos <= |input|
        invariant text + QuotedRun(input[pos..]).0 == all.0 && pos + QuotedRun(input[pos..]).1 == start + all.1
      {
        ghost var rest := input[pos..];
        assert rest[0] == input[pos] && rest[1..] == input[pos + 1..];
        assert |rest| > 1 ==> rest[1] == input[pos + 1] && rest[2..] == input[pos + 2..];
        var c := Get();
        if c == 0 as char {
          assert text + "" == text;
          return;
        }
        if c == '\'' {
          if Peek() == '\'' {
            Assoc3(text, ['\''], QuotedRun(rest[2..]).0);
            var second := Get();
            text := text + ['\''];
          } else {
            assert text + "" == text;
            return;
          }
        } else {
          Assoc3(text, [c], QuotedRun(rest[1..]).0);
          text := text + [c];
        }
      }
      assert text + "" == text;
    }

    method PutBack(t: Token)
      modifies this`putback
      ensures putback == Some(t)
    {
      putback := Some(t);
    }

    /** A put-back token comes first; otherwise the next one is scanned. */
    method Next() returns (t: Token)
      requires Valid()
      modifies this`pos, this`putback
      ensures Valid() && putback == None
      ensures old(putback).Some? ==> t == old(putback).value && pos == old(pos)
      ensures old(putback).None? ==>
        var r := Scan(input[old(pos)..]);
        t == Token(r.kind, r.text, old(pos) + r.blanks) && pos == old(pos) + r.blanks + r.size
    {
      hide Scan, ScanSolid, Blanks;
      if putback.Some? {
        t := putback.value;
        putback := None;
        return;
      }
      ghost var rest := input[pos..];
      SkipSpace();
      ScanCases(rest);
      if pos >= |input| {
        return Token(Eof, "", pos);
      }
      assert input[pos..] == rest[Blanks(rest)..];
      t := NextSolid();
    }

    /** The dispatch of `next` on the first character that is no blank. */
    method NextSolid() returns (t: Token)
      requires Valid() && pos < |input| && !IsBlank(input[pos])
      modifies this`pos
      ensures Valid()
      ensures var r := ScanSolid(input[old(pos)..]);
              t == Token(r.0, r.1, old(pos)) && pos == old(pos) + r.2
    {
      hide QuotedRun, DigitRun, WordRun, NumberRun, Keyword, ScanSolid, Single;
      var start := pos;
      ghost var u := input[start..];
      var c := Peek();
      assert u[0] == c && u[1..] == input[start + 1..];
      assert |u| > 1 <==> pos + 1 < |input|;
      assert |u| > 1 ==> u[1] == input[pos + 1];
      SolidCases(u);
      if IsSingle(c) {
        var got := Get();
        t := Token(Single(c), [c], start);
      } else if c == '$' && pos + 1 < |input| && IsDigit(input[pos + 1]) {
        var dollar := Get();
        var text := TakeDigits([dollar]);
        assert input[start + 1..pos] == u[1..][..pos - start - 1];
        DigitsBehindDollar(u);
        t := Token(Ident, text, start);
      } else if c == '\'' {
        var quote := Get();
        var text := ReadQuoted();
        t := Token(String, text, start);
      } else if IsDigit(c) {
        t := ReadNumber();
        assert input[start..pos] == u[..pos - start];
      } else if IsAlpha(c) || c == '_' {
        t := ReadIdentOrKw();
        assert input[start..pos] == u[..pos - start];
      } else {
        var got := Get();
        t := Token(Ident, [c], start);
      }
    }

    /** The tokens that `next` will still deliver. */
    ghost function Stream(): seq<(TokenKind, string)>
      requires Valid()
      reads this
    {
      (if putback.Some? then [(putback.value.kind, putback.value.text)] else []) + Plain(LexAll(input[pos..]))
    }
  }

  lemma ScanCases(t: string)
    ensures var b := Blanks(t);
            Scan(t) == if b == |t| then Scanned(Eof, "", b, 0)
                       else var r := ScanSolid(t[b..]); Scanned(r.0, r.1, b, r.2)
    ensures Blanks(t) < |t| ==> !IsBlank(t[Blanks(t)])
  {
    hide ScanSolid;
  }

  lemma SolidCases(u: string)
    requires u != "" && !IsBlank(u[0])
    ensures
      var c := u[0];
      ScanSolid(u) ==
        if IsSingle(c) then (Single(c), [c], 1)
        else if c == '$' && |u| > 1 && IsDigit(u[1]) then (Ident, u[..1 + DigitRun(u[1..])], 1 + DigitRun(u[1..]))
        else if c == '\'' then (String, QuotedRun(u[1..]).0, 1 + QuotedRun(u[1..]).1)
        else if IsDigit(c) then (Number, u[..NumberRun(u)], NumberRun(u))
        else if IsAlpha(c) || c == '_' then (Keyword(u[..WordRun(u)]), u[..WordRun(u)], WordRun(u))
        else (Ident, [c], 1)
  {
    hide QuotedRun, DigitRun, WordRun, NumberRun, Keyword;
  }

  lemma DigitsBehindDollar(u: string)
    requires |u| > 1
    ensures [u[0]] + u[1..][..DigitRun(u[1..])] == u[..1 + DigitRun(u[1..])]
  {
  }

  function Plain(rs: seq<Scanned>): (r: seq<(TokenKind, string)>)
    ensures |r| == |rs| && forall i :: 0 <= i < |rs| ==> r[i] == (rs[i].kind, rs[i].text)
  {
    seq(|rs|, i requires 0 <= i < |rs| => (rs[i].kind, rs[i].text))
  }

  /** `next` takes the first token off the stream; putting it back restores the stream. */
  method NextThenPutBack(lexer: Lexer) returns (t: Token)
    requires lexer.Valid()
    modifies lexer
    ensures lexer.Valid() && lexer.putback == Some(t)
    ensures t.kind != Eof ==> lexer.Stream() == old(lexer.Stream())
    ensures t.kind == Eof && old(lexer.putback).None? ==> old(lexer.Stream()) == []
  {
    hide Scan, LexAll;
    ghost var p := lexer.pos;
    t := lexer.Next();
    lexer.PutBack(t);
    StreamStep(lexer.input, p);
  }

  lemma StreamStep(input: string, p: nat)
    requires p <= |input|
    ensures
      var r := Scan(input[p..]);
      Plain(LexAll(input[p..])) ==
      if r.kind == Eof then [] else [(r.kind, r.text)] + Plain(LexAll(input[p + r.blanks + r.size..]))
  {
    hide Scan, LexAll;
    LexStep(input[p..]);
    var r := Scan(input[p..]);
    assert input[p..][r.blanks + r.size..] == input[p + r.blanks + r.size..];
  }

  // ---------------------------------------------------------------- termination and tiling

  /** Every token but the last consumes at least a character, so the end is reached within length + 1 calls. */
  lemma {:induction false} FewTokens(t: string)
    ensures |LexAll(t)| <= |t|
    decreases |t|
  {
    hide ScanSolid;
    var r := Scan(t);
    if r.kind != Eof {
      FewTokens(t[r.blanks + r.size..]);
    }
  }

  /** How much of the text the first `i` tokens and the blanks before each of them take. */
  function Before(rs: seq<Scanned>, i: nat): nat
    requires i <= |rs|
    decreases i
  {
    if i == 0 then 0 else rs[0].blanks + rs[0].size + Before(rs[1..], i - 1)
  }

  /** Token `i` starts behind its blanks and ends before the next one's; behind the last there are only blanks. */
  predicate TiledAt(t: string, rs: seq<Scanned>, i: nat)
    requires i <= |rs|
  {
    var p := Before(rs, i);
    && p <= |t|
    && if i == |rs| then AllBlank(t[p..])
       else
         && rs[i] == Scan(t[p..]) && rs[i].size > 0
         && AllBlank(t[p..p + rs[i].blanks])
         && Before(rs, i + 1) == p + rs[i].blanks + rs[i].size
  }

  /** The tokens tile the text: no character is skipped but blanks, none is read twice, none is left over. */
  lemma {:induction false} TokensTile(t: string, i: nat)
    requires i <= |LexAll(t)|
    ensures TiledAt(t, LexAll(t), i)
    decreases i
  {
    hide Scan, LexAll, IsBlank;
    var r, rs := Scan(t), LexAll(t);
    LexStep(t);
    BlanksAreBlank(t);
    if i == 0 {
      assert t[0..] == t;
      if rs != [] {
        assert Before(rs[1..], 0) == 0;
      }
    } else {
      var n := r.blanks + r.size;
      assert rs[1..] == LexAll(t[n..]);
      TokensTile(t[n..], i - 1);
      TiledBehind(t, rs, n, i);
    }
  }

  lemma LexStep(t: string)
    ensures var r := Scan(t);
            LexAll(t) == if r.kind == Eof then [] else [r] + LexAll(t[r.blanks + r.size..])
  {
    hide Scan;
  }

  lemma TiledBehind(t: string, rs: seq<Scanned>, n: nat, i: nat)
    requires 1 <= i <= |rs| && n <= |t| && n == rs[0].blanks + rs[0].size
    requires TiledAt(t[n..], rs[1..], i - 1)
    ensures TiledAt(t, rs, i)
  {
    hide Scan, AllBlank;
    var q := Before(rs[1..], i - 1);
    assert Before(rs, i) == n + q;
    assert t[n..][q..] == t[n + q..];
    if i < |rs| {
      assert rs[1..][i - 1] == rs[i];
      assert t[n..][q..q + rs[i].blanks] == t[n + q..n + q + rs[i].blanks];
      assert Before(rs, i + 1) == n + Before(rs[1..], i);
    }
  }

  predicate AllBlank(s: string) {
    forall i :: 0 <= i < |s| ==> IsBlank(s[i])
  }

  lemma BlanksAreBlank(t: string)
    ensures AllBlank(t[..Scan(t).blanks])
  {
    hide ScanSolid;
  }

  // ---------------------------------------------------------------- what a token's text says of its span

  function Doubled(v: string): string {
    if v == "" then "" else (if v[0] == '\'' then "''" else [v[0]]) + Doubled(v[1..])
  }

  function QuoteSql(v: string): string {
    "'" + (Doubled(v) + "'")
  }

  /** How a literal can end: closed, cut off by a NUL, or cut off by the end of the input. */
  lemma {:induction false} QuotedRunText(t: string)
    ensures var r := QuotedRun(t); var span := t[..r.1];
            || span == Doubled(r.0) + "'"
            || span == Doubled(r.0) + [0 as char]
            || (span == Doubled(r.0) && r.1 == |t|)
    decreases |t|
  {
    hide Doubled;
    DoubledNothing();
    if t == "" {
    } else if t[0] == 0 as char {
      assert t[..1] == [0 as char];
      assert "" + [0 as char] == [0 as char];
    } else if t[0] == '\'' {
      if |t| > 1 && t[1] == '\'' {
        var r := QuotedRun(t[2..]);
        QuotedRunText(t[2..]);
        DoubledStep('\'', r.0);
        assert t[..r.1 + 2] == "''" + t[2..][..r.1];
        Assoc3("''", Doubled(r.0), "'");
        Assoc3("''", Doubled(r.0), [0 as char]);
      } else {
        assert t[..1] == "'";
        assert "" + "'" == "'";
      }
    } else {
      var r := QuotedRun(t[1..]);
      QuotedRunText(t[1..]);
      DoubledStep(t[0], r.0);
      assert t[..r.1 + 1] == [t[0]] + t[1..][..r.1];
      Assoc3([t[0]], Doubled(r.0), "'");
      Assoc3([t[0]], Doubled(r.0), [0 as char]);
    }
  }

  lemma DoubledNothing()
    ensures Doubled("") == ""
  {
  }

  lemma DoubledStep(c: char, v: string)
    ensures Doubled([c] + v) == (if c == '\'' then "''" else [c]) + Doubled(v)
  {
    assert ([c] + v)[1..] == v;
  }

  /** Lexing loses nothing: a token's span is its text, or for a literal its text quoted again, if it was closed. */
  lemma TokenTextIsItsSpan(t: string)
    ensures var r := Scan(t); var span := t[r.blanks..r.blanks + r.size];
            if r.kind != String then span == r.text
            else
              || span == QuoteSql(r.text)
              || span == "'" + (Doubled(r.text) + [0 as char])
              || (span == "'" + Doubled(r.text) && r.blanks + r.size == |t|)
  {
    hide QuotedRun, Doubled, DigitRun, WordRun, NumberRun, Keyword, Blanks;
    var r := Scan(t);
    var b := r.blanks;
    if b < |t| {
      var u := t[b..];
      assert t[b..b + r.size] == u[..r.size];
      if u[0] == '\'' {
        QuotedRunText(u[1..]);
        assert u[..r.size] == "'" + u[1..][..r.size - 1];
      } else {
        assert u[..1] == [u[0]];
      }
    }
  }

  lemma QuotedChar(c: char, x: string)
    ensures c == 0 as char ==> QuotedRun([c] + x) == ("", 1)
    ensures c != 0 as char && c != '\'' ==> QuotedRun([c] + x) == ([c] + QuotedRun(x).0, QuotedRun(x).1 + 1)
  {
    assert ([c] + x)[0] == c && ([c] + x)[1..] == x;
  }

  lemma QuotedPair(x: string)
    ensures QuotedRun("''" + x) == (['\''] + QuotedRun(x).0, QuotedRun(x).1 + 2)
  {
    var u := "''" + x;
    assert u[0] == '\'' && u[1] == '\'' && u[2..] == x;
  }

  lemma QuotedEnd(t: string)
    requires t == "" || t[0] != '\''
    ensures QuotedRun("'" + t) == ("", 1)
  {
    var u := "'" + t;
    assert u[0] == '\'' && (|u| > 1 ==> u[1] == t[0]);
  }

  lemma {:induction false} QuotedRunOfDoubled(v: string, t: string)
    requires t == "" || t[0] != '\''
    ensures QuotedRun(Doubled(v) + ("'" + t)) == (v, |Doubled(v)| + 1) <==> 0 as char !in v
    decreases |v|
  {
    hide QuotedRun;
    if v == "" {
      assert Doubled(v) + ("'" + t) == "'" + t;
      QuotedEnd(t);
    } else {
      var rest := Doubled(v[1..]) + ("'" + t);
      QuotedRunOfDoubled(v[1..], t);
      assert 0 as char in v <==> v[0] == 0 as char || 0 as char in v[1..] by {
        assert v == [v[0]] + v[1..];
      }
      HeadsEqual(v[0], QuotedRun(rest).0, v);
      if v[0] == '\'' {
        Assoc3("''", Doubled(v[1..]), "'" + t);
        QuotedPair(rest);
      } else {
        Assoc3([v[0]], Doubled(v[1..]), "'" + t);
        QuotedChar(v[0], rest);
      }
    }
  }

  lemma HeadsEqual(c: char, a: string, v: string)
    requires v != "" && v[0] == c
    ensures [c] + a == v <==> a == v[1..]
  {
    assert v == [c] + v[1..];
    assert ([c] + a)[1..] == a;
  }

  /** A quoted literal is read back exactly when it holds no NUL. */
  lemma QuotedLiteralRoundTrip(v: string, t: string)
    requires t == "" || t[0] != '\''
    ensures Scan(QuoteSql(v) + t) == Scanned(String, v, 0, |QuoteSql(v)|) <==> 0 as char !in v
  {
    hide QuotedRun, Doubled;
    var u := QuoteSql(v) + t;
    Assoc3("'", Doubled(v) + "'", t);
    Assoc3(Doubled(v), "'", t);
    assert u[0] == '\'' && u[1..] == Doubled(v) + ("'" + t);
    QuotedRunOfDoubled(v, t);
    SolidFront(u);
  }

  lemma SolidFront(u: string)
    requires u != "" && !IsBlank(u[0])
    ensures Scan(u) == (var r := ScanSolid(u); Scanned(r.0, r.1, 0, r.2))
  {
    hide ScanSolid;
    assert Blanks(u) == 0;
    assert u[0..] == u;
  }

  /** A double quote is a token of its own: quoted identifiers are not read as one. */
  lemma DoubleQuoteIsOneToken(t: string)
    ensures Scan("\"" + t) == Scanned(Ident, "\"", 0, 1)
  {
    var u := "\"" + t;
    assert u[0] == '"';
    SolidFront(u);
  }
}
