/** The liq parser: tokens, the clause loops, and the statements that come back from their printed form. */
module LiqParser {
  import opened Text
  import opened Liq

  // ---------------------------------------------------------------- Python's strings

  /** `str.isspace`: where `str.split()` cuts. */
  predicate IsPySpace(c: char) {
    var n := c as int;
    || n == 32 || 9 <= n <= 13 || 28 <= n <= 31 || n == 0x85 || n == 0xA0 || n == 0x1680 || 0x2000 <= n <= 0x200A
    || n == 0x2028 || n == 0x2029 || n == 0x202F || n == 0x205F || n == 0x3000
  }

  /** `str.split()`, `cur` being the token under way. */
  function SplitWs(s: string, cur: string): seq<string>
    decreases |s|
  {
    if s == "" then (if cur == "" then [] else [cur])
    else if IsPySpace(s[0]) then (if cur == "" then [] else [cur]) + SplitWs(s[1..], "")
    else SplitWs(s[1..], cur + [s[0]])
  }

  function StripLeft(s: string): (r: string)
    ensures |r| <= |s|
  {
    if s != "" && IsPySpace(s[0]) then StripLeft(s[1..]) else s
  }

  function StripRight(s: string): (r: string)
    ensures |r| <= |s|
  {
    if s != "" && IsPySpace(s[|s| - 1]) then StripRight(s[..|s| - 1]) else s
  }

  /** `str.strip()`. */
  function Strip(s: string): string {
    StripRight(StripLeft(s))
  }

  /** `str.rstrip(",")`. */
  function DropCommas(s: string): (r: string)
    ensures |r| <= |s|
  {
    if s != "" && s[|s| - 1] == ',' then DropCommas(s[..|s| - 1]) else s
  }

  /** `[p.strip() for p in s.split(",") if p.strip()]`, `cur` being the piece under way. */
  function CommaParts(s: string, cur: string): seq<string>
    decreases |s|
  {
    if s == "" then (if Strip(cur) == "" then [] else [Strip(cur)])
    else if s[0] == ',' then (if Strip(cur) == "" then [] else [Strip(cur)]) + CommaParts(s[1..], "")
    else CommaParts(s[1..], cur + [s[0]])
  }

  /** `str.isdigit()` on ASCII text. */
  predicate IsNumeral(s: string) {
    s != "" && AllDigits(s)
  }

  // ---------------------------------------------------------------- words of the language

  predicate IdentStart(c: char) {
    IsAlpha(c) || c == '_'
  }

  predicate IdentChar(c: char) {
    IdentStart(c) || IsDigit(c)
  }

  predicate IsName(s: string) {
    s != "" && IdentStart(s[0]) && forall i :: 0 <= i < |s| ==> IdentChar(s[i])
  }

  /** `_IDENT`: a name, or two with a dot between. */
  predicate IsIdent(s: string) {
    IsName(s) || exists i :: 0 <= i < |s| && s[i] == '.' && IsName(s[..i]) && IsName(s[i + 1..])
  }

  /** `_FORBIDDEN`. */
  predicate Forbidden(source: string) {
    Find(source, "${").Some? || ';' in source
  }

  /** `_rhs`: a parameter, an integer or a quoted constant; `None` is `ParseError`. */
  function ParseRhs(t: string): Option<Rhs> {
    if StartsWith(t, "$") then (if IsName(t[1..]) then Some(ParamRef(t[1..])) else None)
    else if IsNumeral(t) then Some(ConstInt(ReadDecimal(t)))
    else if t != "" && t[0] == t[|t| - 1] && (t[0] == '\'' || t[0] == '"') then
      Some(ConstText(if |t| == 1 then "" else t[1..|t| - 1]))
    else None
  }

  /** `_predicate` on the tokens behind `where`. */
  function ParsePredicate(ts: seq<string>): (r: Option<Predicate>)
    ensures r.Some? ==> |ts| >= 3
  {
    if |ts| < 3 || ts[1] != "=" then None
    else
      var rhs := ParseRhs(ts[2]);
      if rhs.None? then None else Some(Predicate(ts[0], rhs.value))
  }

  /** How many tokens stand before the first `}`. */
  function UntilBrace(ts: seq<string>): (n: nat)
    ensures n <= |ts| && (n < |ts| ==> ts[n] == "}") && forall i :: 0 <= i < n ==> ts[i] != "}"
  {
    if ts == [] || ts[0] == "}" then 0
    else
      var n := UntilBrace(ts[1..]);
      assert forall i :: 1 <= i < n + 1 ==> ts[i] == ts[1..][i - 1];
      n + 1
  }

  function DropCommasAll(ts: seq<string>): (r: seq<string>)
    ensures |r| == |ts| && forall i :: 0 <= i < |ts| ==> r[i] == DropCommas(ts[i])
  {
    seq(|ts|, i requires 0 <= i < |ts| => DropCommas(ts[i]))
  }

  function WithWhere(s: Stmt, p: Option<Predicate>): (r: Stmt)
    requires s.Read?
    ensures r.Read?
  {
    Read(s.table, s.columns, p, s.order, s.limit)
  }

  /** A direction that is not given leaves the one in force. */
  function WithOrder(s: Stmt, column: string, direction: Option<string>): (r: Stmt)
    requires s.Read?
    ensures r.Read?
  {
    var before := s.order.Some? && s.order.value.desc;
    s.(order := Some(Ordering(column, if direction.None? then before else direction.value == "desc")))
  }

  /** The clause loop of `_parse_read`. */
  function Clauses(ts: seq<string>, s: Stmt): Option<Stmt>
    requires s.Read?
    decreases |ts|
  {
    if ts == [] then Some(s)
    else if ts[0] == "{" then
      var n := UntilBrace(ts[1..]);
      if n + 1 == |ts| then None else Clauses(ts[n + 2..], s.(columns := Some(DropCommasAll(ts[1..n + 1]))))
    else if ts[0] == "where" then
      var p := ParsePredicate(ts[1..]);
      if p.None? then None else Clauses(ts[4..], WithWhere(s, p))
    else if ts[0] == "order" then
      if |ts| < 2 then None
      else if |ts| >= 3 && ts[2] in ["asc", "desc"] then Clauses(ts[3..], WithOrder(s, ts[1], Some(ts[2])))
      else Clauses(ts[2..], WithOrder(s, ts[1], None))
    else if ts[0] == "limit" then
      if |ts| < 2 || !IsNumeral(ts[1]) then None else Clauses(ts[2..], s.(limit := Some(ReadDecimal(ts[1]))))
    else None
  }

  function EmptyRead(table: string): (r: Stmt)
    ensures r.Read?
  {
    Read(table, None, None, None, None)
  }

  function ParseRead(ts: seq<string>): Option<Stmt> {
    if |ts| < 2 || !IsIdent(ts[1]) then None else Clauses(ts[2..], EmptyRead(ts[1]))
  }

  /** `field: value`, cut at the first colon. */
  function ParseBinding(part: string): Option<Binding> {
    var colon := Find(part, ":");
    if colon.None? then None
    else
      var rhs := ParseRhs(Strip(part[colon.value + 1..]));
      if rhs.None? then None else Some(Binding(Strip(part[..colon.value]), rhs.value))
  }

  function Bindings(parts: seq<string>): Option<seq<Binding>> {
    if parts == [] then Some([])
    else
      var init, b := Bindings(parts[..|parts| - 1]), ParseBinding(parts[|parts| - 1]);
      if init.None? || b.None? then None else Some(init.value + [b.value])
  }

  function ParseInsert(ts: seq<string>): Option<Stmt> {
    if |ts| < 4 || ts[2] != "{" || !IsIdent(ts[1]) || ts[|ts| - 1] != "}" then None
    else
      var bs := Bindings(CommaParts(Join(ts[3..|ts| - 1], " "), ""));
      if bs.None? then None else Some(Insert(ts[1], bs.value))
  }

  /** The SET loop: the bindings and the tokens from `where` or `returning` on. */
  function SetLoop(ts: seq<string>, bs: seq<Binding>): Option<(seq<Binding>, seq<string>)>
    decreases |ts|
  {
    if ts == [] || ts[0] in ["where", "returning"] then Some((bs, ts))
    else if |ts| < 3 || ts[1] != "=" || ParseRhs(ts[2]).None? then None
    else SetLoop(ts[3..], bs + [Binding(ts[0], ParseRhs(ts[2]).value)])
  }

  /** The loop behind it; `returning` takes every token that is left. */
  function UpdateTail(ts: seq<string>, where: Option<Predicate>): Option<(Option<Predicate>, Option<seq<string>>)>
    decreases |ts|
  {
    if ts == [] then Some((where, None))
    else if ts[0] == "where" then
      var p := ParsePredicate(ts[1..]);
      if p.None? then None else UpdateTail(ts[4..], p)
    else if ts[0] == "returning" then Some((where, Some(DropCommasAll(ts[1..]))))
    else None
  }

  function ParseUpdate(ts: seq<string>): Option<Stmt> {
    if |ts| < 5 || ts[0] != "update" || ts[2] != "set" || !IsIdent(ts[1]) then None
    else
      var sets := SetLoop(ts[3..], []);
      if sets.None? then None
      else
        var tail := UpdateTail(sets.value.1, None);
        if tail.None? || sets.value.0 == [] then None else Some(Update(ts[1], sets.value.0, tail.value.0, tail.value.1))
  }

  /** `from` may be left out; what follows a predicate is not looked at. */
  function ParseDelete(ts: seq<string>): Option<Stmt>
    requires ts != []
  {
    var rest := if |ts| > 1 && ts[1] == "from" then ts[2..] else ts[1..];
    if rest == [] || !IsIdent(rest[0]) then None
    else if |rest| == 1 then Some(Delete(rest[0], None))
    else if rest[1] != "where" then None
    else
      var p := ParsePredicate(rest[2..]);
      if p.None? then None else Some(Delete(rest[0], p))
  }

  function ParseTokens(ts: seq<string>): Option<Stmt> {
    if ts == [] then None
    else
      var verb := Lower(ts[0]);
      if verb == "read" then ParseRead(ts) else if verb == "insert" then ParseInsert(ts)
      else if verb == "update" then ParseUpdate(ts) else if verb == "delete" then ParseDelete(ts) else None
  }

  /** `parse`. */
  function Parse(source: string): Option<Stmt> {
    if Forbidden(source) then None else ParseTokens(SplitWs(source, ""))
  }

  // ---------------------------------------------------------------- the loops

  method ProjectionLoop(tokens: seq<string>, start: nat) returns (cols: seq<string>, i: nat)
    requires start <= |tokens|
    ensures i == start + UntilBrace(tokens[start..]) && i <= |tokens| && cols == DropCommasAll(tokens[start..i])
  {
    cols, i := [], start;
    while i < |tokens| && tokens[i] != "}"
      invariant start <= i <= |tokens| && cols == DropCommasAll(tokens[start..i])
      invariant i + UntilBrace(tokens[i..]) == start + UntilBrace(tokens[start..])
    {
      assert tokens[i..][1..] == tokens[i + 1..] && tokens[i..][0] == tokens[i];
      assert tokens[start..i + 1] == tokens[start..i] + [tokens[i]];
      cols := cols + [DropCommas(tokens[i])];
      i := i + 1;
    }
  }

  method ParseReadTokens(tokens: seq<string>) returns (r: Option<Stmt>)
    ensures r == ParseRead(tokens)
  {
    hide ParsePredicate, IsIdent, UntilBrace, WithOrder, WithWhere, DropCommasAll, Clauses, ReadDecimal;
    if |tokens| < 2 || !IsIdent(tokens[1]) {
      return None;
    }
    var s := EmptyRead(tokens[1]);
    var i := 2;
    while i < |tokens|
      invariant 2 <= i <= |tokens| && s.Read? && Clauses(tokens[i..], s) == ParseRead(tokens)
    {
      var ts := tokens[i..];
      var tok := tokens[i];
      ClauseCases(ts, s);
      if tok == "{" {
        var cols, j := ProjectionLoop(tokens, i + 1);
        assert ts[1..] == tokens[i + 1..];
        if j >= |tokens| {
          return None;
        }
        assert ts[1..j - i] == tokens[i + 1..j] && ts[j - i + 1..] == tokens[j + 1..];
        s := s.(columns := Some(cols));
        i := j + 1;
      } else if tok == "where" {
        var p := ParsePredicate(tokens[i + 1..]);
        assert ts[1..] == tokens[i + 1..];
        if p.None? {
          return None;
        }
        assert ts[4..] == tokens[i + 4..];
        s := WithWhere(s, p);
        i := i + 4;
      } else if tok == "order" {
        if i + 1 >= |tokens| {
          return None;
        }
        var column, direction := tokens[i + 1], None;
        assert ts[2..] == tokens[i + 2..];
        i := i + 2;
        if i < |tokens| && (tokens[i] == "asc" || tokens[i] == "desc") {
          assert ts[3..] == tokens[i + 1..] && ts[2] == tokens[i];
          direction := Some(tokens[i]);
          i := i + 1;
        }
        s := WithOrder(s, column, direction);
      } else if tok == "limit" {
        if i + 1 >= |tokens| || !IsNumeral(tokens[i + 1]) {
          return None;
        }
        assert ts[2..] == tokens[i + 2..] && ts[1] == tokens[i + 1];
        s := s.(limit := Some(ReadDecimal(tokens[i + 1])));
        i := i + 2;
      } else {
        return None;
      }
    }
    assert tokens[i..] == [];
    NoClauses(s);
    r := Some(s);
  }

  lemma NoClauses(s: Stmt)
    requires s.Read?
    ensures Clauses([], s) == Some(s)
  {
  }

  /** The clause loop, one turn. */
  lemma ClauseCases(ts: seq<string>, s: Stmt)
    requires s.Read? && ts != []
    ensures ts[0] == "{" ==>
      Clauses(ts, s) ==
        var n := UntilBrace(ts[1..]);
        if n + 1 == |ts| then None else Clauses(ts[n + 2..], s.(columns := Some(DropCommasAll(ts[1..n + 1]))))
    ensures ts[0] == "where" ==>
      Clauses(ts, s) ==
        var p := ParsePredicate(ts[1..]);
        if p.None? then None else Clauses(ts[4..], WithWhere(s, p))
    ensures ts[0] == "order" ==>
      Clauses(ts, s) ==
        if |ts| < 2 then None
        else if |ts| >= 3 && (ts[2] == "asc" || ts[2] == "desc") then Clauses(ts[3..], WithOrder(s, ts[1], Some(ts[2])))
        else Clauses(ts[2..], WithOrder(s, ts[1], None))
    ensures ts[0] == "limit" ==>
      Clauses(ts, s) ==
        if |ts| < 2 || !IsNumeral(ts[1]) then None else Clauses(ts[2..], s.(limit := Some(ReadDecimal(ts[1]))))
    ensures ts[0] !in ["{", "where", "order", "limit"] ==> Clauses(ts, s) == None
  {
    hide ParsePredicate, UntilBrace, WithOrder, WithWhere, DropCommasAll, ReadDecimal;
  }

  method ParseBindings(inner: string) returns (r: Option<seq<Binding>>)
    ensures r == Bindings(CommaParts(inner, ""))
  {
    hide ParseBinding, CommaParts;
    var parts := CommaParts(inner, "");
    var out := [];
    for i := 0 to |parts|
      invariant Bindings(parts[..i]) == Some(out)
    {
      assert parts[..i + 1][..i] == parts[..i];
      var b := ParseBinding(parts[i]);
      if b.None? {
        BindingsStop(parts, i + 1);
        return None;
      }
      out := out + [b.value];
    }
    assert parts[..|parts|] == parts;
    r := Some(out);
  }

  lemma {:induction false} BindingsStop(parts: seq<string>, n: nat)
    requires n <= |parts| && Bindings(parts[..n]).None?
    ensures Bindings(parts).None?
    decreases |parts|
  {
    if n < |parts| {
      assert parts[..|parts| - 1][..n] == parts[..n];
      BindingsStop(parts[..|parts| - 1], n);
    } else {
      assert parts[..n] == parts;
    }
  }

  /** The SET loop; `i` is where it stops. */
  method SetBindings(tokens: seq<string>) returns (ok: bool, bindings: seq<Binding>, i: nat)
    requires |tokens| >= 3
    ensures ok <==> SetLoop(tokens[3..], []).Some?
    ensures ok ==> i <= |tokens| && SetLoop(tokens[3..], []) == Some((bindings, tokens[i..]))
  {
    hide ParseRhs;
    ok, bindings, i := true, [], 3;
    while i < |tokens| && tokens[i] != "where" && tokens[i] != "returning"
      invariant 3 <= i <= |tokens| && SetLoop(tokens[i..], bindings) == SetLoop(tokens[3..], [])
    {
      if i + 2 >= |tokens| || tokens[i + 1] != "=" {
        return false, bindings, i;
      }
      var rhs := ParseRhs(tokens[i + 2]);
      if rhs.None? {
        return false, bindings, i;
      }
      assert tokens[i..][3..] == tokens[i + 3..];
      bindings := bindings + [Binding(tokens[i], rhs.value)];
      i := i + 3;
    }
  }

  /** The loop over WHERE and RETURNING. */
  method UpdateClauses(tokens: seq<string>, start: nat)
    returns (ok: bool, where: Option<Predicate>, returning: Option<seq<string>>)
    requires start <= |tokens|
    ensures ok <==> UpdateTail(tokens[start..], None).Some?
    ensures ok ==> UpdateTail(tokens[start..], None) == Some((where, returning))
  {
    hide ParsePredicate, DropCommasAll;
    ok, where, returning := true, None, None;
    var i := start;
    while i < |tokens|
      invariant start <= i <= |tokens| && returning.None?
      invariant UpdateTail(tokens[i..], where) == UpdateTail(tokens[start..], None)
    {
      assert tokens[i..][1..] == tokens[i + 1..];
      if tokens[i] == "where" {
        var p := ParsePredicate(tokens[i + 1..]);
        if p.None? {
          return false, where, returning;
        }
        assert tokens[i..][4..] == tokens[i + 4..];
        where := p;
        i := i + 4;
      } else if tokens[i] == "returning" {
        returning := Some(DropCommasAll(tokens[i + 1..]));
        return;
      } else {
        return false, where, returning;
      }
    }
  }

  method ParseUpdateTokens(tokens: seq<string>) returns (r: Option<Stmt>)
    ensures r == ParseUpdate(tokens)
  {
    hide IsIdent, SetLoop, UpdateTail;
    if |tokens| < 5 || tokens[0] != "update" || tokens[2] != "set" || !IsIdent(tokens[1]) {
      return None;
    }
    var setOk, bindings, i := SetBindings(tokens);
    if !setOk {
      return None;
    }
    var ok, where, returning := UpdateClauses(tokens, i);
    if !ok || bindings == [] {
      return None;
    }
    r := Some(Update(tokens[1], bindings, where, returning));
  }

  method ParseSource(source: string) returns (r: Option<Stmt>)
    ensures r == Parse(source)
  {
    if Forbidden(source) {
      return None;
    }
    var tokens := SplitWs(source, "");
    if tokens == [] {
      return None;
    }
    var verb := Lower(tokens[0]);
    if verb == "read" {
      r := ParseReadTokens(tokens);
    } else if verb == "insert" {
      if |tokens| < 4 || tokens[2] != "{" || !IsIdent(tokens[1]) || tokens[|tokens| - 1] != "}" {
        return None;
      }
      var bs := ParseBindings(Join(tokens[3..|tokens| - 1], " "));
      r := if bs.None? then None else Some(Insert(tokens[1], bs.value));
    } else if verb == "update" {
      r := ParseUpdateTokens(tokens);
    } else if verb == "delete" {
      r := ParseDelete(tokens);
    } else {
      r := None;
    }
  }
}
