/**
 Catalog flattening: the regular-expression rewrites that turn qualified SQL with
 `$n` slots into the unqualified SQL with `?` slots that the executor scans. The
 same rewrite exists three times (engine, registry parser, Python bridge); each is
 modelled as a left-to-right scan for its leftmost match.
 */
module Flatten {
  import opened Text

  /** Length of the run of characters other than a double quote at the front. */
  function PlainRun(s: string): (n: nat)
    ensures n <= |s| && '"' !in s[..n] && (n < |s| ==> s[n] == '"')
  {
    if s == "" || s[0] == '"' then 0
    else
      var n := PlainRun(s[1..]);
      assert s[..n + 1] == [s[0]] + s[1..][..n];
      n + 1
  }

  /** Length of the match of `"[^"]+"` at the front of `s`, 0 when there is none. */
  function QuotedLen(s: string): (n: nat)
    ensures n <= |s| && (n != 0 ==> n >= 3 && s[0] == '"' && s[n - 1] == '"')
  {
    if s == "" || s[0] != '"' then 0
    else
      var k := PlainRun(s[1..]);
      if k > 0 && 1 + k < |s| then k + 2 else 0
  }

  /** Length of the match of `n` quoted names joined by dots, 0 when there is none. */
  function DottedLen(n: nat, s: string): (k: nat)
    requires n >= 1
    ensures k <= |s|
    decreases n
  {
    if n == 1 then QuotedLen(s)
    else
      var a := QuotedLen(s);
      if a == 0 || a >= |s| || s[a] != '.' then 0
      else
        var b := DottedLen(n - 1, s[a + 1..]);
        if b == 0 then 0 else a + 1 + b
  }

  /** The text captured by the last group of that match. */
  function LastName(n: nat, s: string): string
    requires n >= 1 && DottedLen(n, s) != 0
    decreases n
  {
    if n == 1 then s[1..QuotedLen(s) - 1]
    else LastName(n - 1, s[QuotedLen(s) + 1..])
  }

  /** `regex_replace` of every chain of `n` dotted quoted names by its last name. */
  function ReplaceDotted(n: nat, s: string): string
    requires n >= 1
    decreases |s|
  {
    if s == "" then ""
    else
      var k := DottedLen(n, s);
      if k != 0 then LastName(n, s) + ReplaceDotted(n, s[k..])
      else [s[0]] + ReplaceDotted(n, s[1..])
  }

  /** `regex_replace` of every `$` followed by digits by a question mark. */
  function ReplaceSlots(s: string): string
    decreases |s|
  {
    if s == "" then ""
    else if s[0] == '$' && DigitRun(s[1..]) > 0 then "?" + ReplaceSlots(s[1 + DigitRun(s[1..])..])
    else [s[0]] + ReplaceSlots(s[1..])
  }

  /** Trailing white space, then at most one semicolon, popped off. */
  function StripTail(s: string): string {
    var t := TrimRight(s);
    if t != "" && t[|t| - 1] == ';' then t[..|t| - 1] else t
  }

  /** `EmbeddedDatabase::flatten_catalog_sql`. */
  function FlattenEngine(sql: string): string {
    StripTail(ReplaceDotted(1, ReplaceSlots(ReplaceDotted(2, ReplaceDotted(3, sql)))))
  }

  /** `lidb::sql::flatten_catalog_sql`, which has no pass for lone quoted names. */
  function FlattenParser(sql: string): string {
    StripTail(ReplaceSlots(ReplaceDotted(2, ReplaceDotted(3, sql))))
  }

  /** The bridge's `_flatten_sql`, which keeps the tail as it is. */
  function FlattenBridge(sql: string): string {
    ReplaceSlots(ReplaceDotted(2, ReplaceDotted(3, sql)))
  }

  /** The engine's flattener as written: four substitutions, then a loop of `pop_back`. */
  method FlattenCatalogSql(sql: string) returns (out: string)
    ensures out == FlattenEngine(sql)
  {
    out := ReplaceDotted(3, sql);
    out := ReplaceDotted(2, out);
    out := ReplaceSlots(out);
    out := ReplaceDotted(1, out);
    ghost var all := out;
    while out != "" && IsSpace(out[|out| - 1])
      invariant TrimRight(out) == TrimRight(all)
      decreases |out|
    {
      out := out[..|out| - 1];
    }
    if out != "" && out[|out| - 1] == ';' {
      out := out[..|out| - 1];
    }
  }

  // ---------------------------------------------------------------- qualified SQL as pieces

  /** What compiled SQL is made of: literal text, `"s"."t"`, `"s"."t"."c"` and `$n`. */
  datatype Piece =
    | Lit(text: string)
    | Table(schema: string, table: string)
    | Column(schema: string, table: string, column: string)
    | Slot(index: nat)

  /** `"a"` followed by `t`. */
  function Quoted(a: string, t: string): string {
    "\"" + (a + ("\"" + t))
  }

  /** The qualified text of a piece, in front of the text `t`. */
  function RenderPiece(p: Piece, t: string): string {
    match p
    case Lit(x) => x + t
    case Table(a, b) => Quoted(a, "." + Quoted(b, t))
    case Column(a, b, c) => Quoted(a, "." + Quoted(b, "." + Quoted(c, t)))
    case Slot(n) => "$" + (Decimal(n) + t)
  }

  /** The qualified text, with `$n` slots. */
  function Render(ps: seq<Piece>): string {
    if ps == [] then "" else RenderPiece(ps[0], Render(ps[1..]))
  }

  /** The unqualified text of a piece, with `?` for a slot. */
  function FlatPiece(p: Piece): string {
    match p
    case Lit(x) => x
    case Table(_, t) => t
    case Column(_, _, c) => c
    case Slot(_) => "?"
  }

  function RenderFlat(ps: seq<Piece>): string {
    if ps == [] then "" else FlatPiece(ps[0]) + RenderFlat(ps[1..])
  }

  /** A name that can stand between double quotes in front of more SQL. */
  predicate QuotableName(s: string) {
    s != "" && '"' !in s && '$' !in s && s[0] != '.' && !IsDigit(s[0])
  }

  predicate GoodPiece(p: Piece) {
    match p
    case Lit(x) => x != "" && '"' !in x && '$' !in x && x[0] != '.' && !IsDigit(x[0])
    case Table(s, t) => QuotableName(s) && QuotableName(t)
    case Column(s, t, c) => QuotableName(s) && QuotableName(t) && QuotableName(c)
    case Slot(_) => true
  }

  /** Names and slots are separated by literal text. */
  predicate GoodPieces(ps: seq<Piece>) {
    && (forall i :: 0 <= i < |ps| ==> GoodPiece(ps[i]))
    && (forall i :: 0 <= i < |ps| - 1 ==> ps[i].Lit? || ps[i + 1].Lit?)
  }

  /** The text left of a pass for `n`-part names, seen as pieces again. */
  function Shorten(n: nat, p: Piece): Piece {
    match p
    case Table(_, t) => if n == 2 then Lit(t) else p
    case Column(_, _, c) => if n == 3 then Lit(c) else p
    case _ => p
  }

  function ShortenAll(n: nat, ps: seq<Piece>): seq<Piece> {
    if ps == [] then [] else [Shorten(n, ps[0])] + ShortenAll(n, ps[1..])
  }

  // ---------------------------------------------------------------- matching over pieces

  /** The first quote in `s`, if any, is not followed by a dot, and `s` does not start with one. */
  predicate SafeTail(s: string) {
    && (s != "" ==> s[0] != '.')
    && (PlainRun(s) + 1 < |s| ==> s[PlainRun(s) + 1] != '.')
  }

  lemma PlainRunOver(x: string, t: string)
    requires '"' !in x
    ensures PlainRun(x + t) == |x| + PlainRun(t)
  {
    if x == "" {
      assert x + t == t;
    } else {
      assert (x + t)[0] == x[0] && (x + t)[1..] == x[1..] + t;
      PlainRunOver(x[1..], t);
    }
  }

  lemma QuotedLenName(a: string, t: string)
    requires a != "" && '"' !in a
    ensures var s := Quoted(a, t); QuotedLen(s) == |a| + 2 && |s| == |a| + 2 + |t| && s[|a| + 2..] == t && s[1..|a| + 1] == a
    ensures t != "" ==> Quoted(a, t)[|a| + 2] == t[0]
    ensures t != "" ==> Quoted(a, t)[|a| + 3..] == t[1..]
  {
    var s, x := Quoted(a, t), "\"" + (a + "\"");
    assert s[1..] == a + ("\"" + t);
    PlainRunOver(a, "\"" + t);
    assert s[1..|a| + 1] == a;
    assert s == x + t && |x| == |a| + 2;
  }

  /** One more name in front of a dot: the match gets longer by that name. */
  lemma DottedLenName(n: nat, a: string, inner: string)
    requires n >= 2 && a != "" && '"' !in a
    ensures var s, b := Quoted(a, "." + inner), DottedLen(n - 1, inner);
            && DottedLen(n, s) == (if b == 0 then 0 else |a| + 3 + b)
            && (b != 0 ==> LastName(n, s) == LastName(n - 1, inner) && s[|a| + 3 + b..] == inner[b..])
  {
    hide Quoted, QuotedLen;
    QuotedLenName(a, "." + inner);
    var s := Quoted(a, "." + inner);
    assert ("." + inner)[1..] == inner;
    assert s[|a| + 3..] == inner;
    var b := DottedLen(n - 1, inner);
    assert s[|a| + 3 + b..] == s[|a| + 3..][b..];
  }

  /** A name at the end of a chain: not followed by a dot. */
  lemma LastNameOnly(n: nat, a: string, t: string)
    requires n >= 1 && a != "" && '"' !in a && (t != "" ==> t[0] != '.')
    ensures n >= 2 ==> DottedLen(n, Quoted(a, t)) == 0
    ensures DottedLen(1, Quoted(a, t)) == |a| + 2 && LastName(1, Quoted(a, t)) == a && Quoted(a, t)[|a| + 2..] == t
  {
    QuotedLenName(a, t);
  }

  /** After a closing quote no dotted chain starts when the tail is safe. */
  lemma NoChainAtClosingQuote(n: nat, t: string)
    requires n >= 2 && SafeTail(t)
    ensures DottedLen(n, "\"" + t) == 0
  {
    var s := "\"" + t;
    assert s[1..] == t;
    var k := PlainRun(t);
    assert k + 2 < |s| ==> s[k + 2] == t[k + 1];
  }

  lemma {:induction false} SkipPlain(n: nat, x: string, t: string)
    requires n >= 1 && '"' !in x
    ensures ReplaceDotted(n, x + t) == x + ReplaceDotted(n, t)
  {
    if x == "" {
      assert x + t == t;
    } else {
      assert (x + t)[0] == x[0] && (x + t)[1..] == x[1..] + t;
      SkipPlain(n, x[1..], t);
      assert x == [x[0]] + x[1..];
    }
  }

  /** A quoted name at which no chain starts is copied, up to what follows its closing quote. */
  lemma SkipQuoted(n: nat, a: string, t: string)
    requires n >= 1 && '"' !in a
    requires DottedLen(n, Quoted(a, t)) == 0 && DottedLen(n, "\"" + t) == 0
    ensures ReplaceDotted(n, Quoted(a, t)) == Quoted(a, ReplaceDotted(n, t))
  {
    SkipPlain(n, a, "\"" + t);
  }

  /** `"."` in the middle of a two-part name looks like a quoted dot, but no chain follows. */
  lemma ClosingQuoteBeforeDot(b: string, t: string)
    requires QuotableName(b)
    ensures DottedLen(3, "\"" + ("." + Quoted(b, t))) == 0
  {
    var rest := b + ("\"" + t);
    assert "." + Quoted(b, t) == "." + ("\"" + rest);
    assert "\"" + ("." + Quoted(b, t)) == Quoted(".", rest);
    QuotedLenName(".", rest);
    assert rest[0] == b[0];
  }

  /** The pass for three-part names leaves a two-part name alone. */
  lemma SkipTable(a: string, b: string, t: string)
    requires QuotableName(a) && QuotableName(b) && SafeTail(t)
    ensures ReplaceDotted(3, Quoted(a, "." + Quoted(b, t))) == Quoted(a, "." + Quoted(b, ReplaceDotted(3, t)))
  {
    LastNameOnly(2, b, t);
    DottedLenName(3, a, Quoted(b, t));
    ClosingQuoteBeforeDot(b, t);
    SkipQuoted(3, a, "." + Quoted(b, t));
    SkipPlain(3, ".", Quoted(b, t));
    LastNameOnly(3, b, t);
    NoChainAtClosingQuote(3, t);
    SkipQuoted(3, b, t);
  }

  lemma MatchTable(a: string, b: string, t: string)
    requires QuotableName(a) && QuotableName(b) && SafeTail(t)
    ensures ReplaceDotted(2, Quoted(a, "." + Quoted(b, t))) == b + ReplaceDotted(2, t)
  {
    LastNameOnly(1, b, t);
    DottedLenName(2, a, Quoted(b, t));
  }

  lemma MatchColumn(a: string, b: string, c: string, t: string)
    requires QuotableName(a) && QuotableName(b) && QuotableName(c) && SafeTail(t)
    ensures ReplaceDotted(3, Quoted(a, "." + Quoted(b, "." + Quoted(c, t)))) == c + ReplaceDotted(3, t)
  {
    LastNameOnly(1, c, t);
    DottedLenName(2, b, Quoted(c, t));
    DottedLenName(3, a, Quoted(b, "." + Quoted(c, t)));
  }

  // ---------------------------------------------------------------- the passes over pieces

  lemma DecimalHasNoQuote(n: nat)
    ensures '"' !in Decimal(n)
  {
  }

  /** The rendering of well-formed pieces never has a dot right after its first quote. */
  lemma {:induction false} RenderIsSafe(ps: seq<Piece>)
    requires GoodPieces(ps)
    ensures ps != [] && !ps[0].Lit? ==> Render(ps) != "" && Render(ps)[0] in "\"$"
    ensures ps == [] || ps[0].Lit? ==> SafeTail(Render(ps))
  {
    if ps != [] && ps[0].Lit? {
      var x, t := ps[0].text, Render(ps[1..]);
      RenderIsSafe(ps[1..]);
      PlainRunOver(x, t);
      RenderAfterQuote(ps[1..]);
      assert Render(ps) == x + t;
      assert |x| + PlainRun(t) + 1 < |x + t| ==> (x + t)[|x| + PlainRun(t) + 1] == t[PlainRun(t) + 1];
    }
  }

  /** Whatever stands after the first quote of rendered pieces is the start of a name. */
  lemma {:induction false} RenderAfterQuote(ps: seq<Piece>)
    requires GoodPieces(ps)
    ensures var s := Render(ps); PlainRun(s) + 1 < |s| ==> s[PlainRun(s) + 1] != '.'
  {
    if ps != [] {
      var t := Render(ps[1..]);
      match ps[0]
      case Lit(x) =>
        RenderAfterQuote(ps[1..]);
        PlainRunOver(x, t);
      case Slot(n) =>
        RenderAfterQuote(ps[1..]);
        DecimalHasNoQuote(n);
        assert Render(ps) == ("$" + Decimal(n)) + t;
        PlainRunOver("$" + Decimal(n), t);
      case Table(a, b) =>
        assert Render(ps)[0] == '"' && Render(ps)[1] == a[0];
      case Column(a, b, c) =>
        assert Render(ps)[0] == '"' && Render(ps)[1] == a[0];
    }
  }

  lemma {:induction false} ShortenAllAt(n: nat, ps: seq<Piece>)
    ensures |ShortenAll(n, ps)| == |ps|
    ensures forall i :: 0 <= i < |ps| ==> ShortenAll(n, ps)[i] == Shorten(n, ps[i])
  {
    if ps != [] {
      ShortenAllAt(n, ps[1..]);
      assert forall i :: 1 <= i < |ps| ==> ps[i] == ps[1..][i - 1];
    }
  }

  lemma ShortenKeepsGood(n: nat, ps: seq<Piece>)
    requires GoodPieces(ps)
    ensures GoodPieces(ShortenAll(n, ps))
  {
    ShortenAllAt(n, ps);
  }

  lemma {:induction false} ShortenKeepsFlat(n: nat, ps: seq<Piece>)
    ensures RenderFlat(ShortenAll(n, ps)) == RenderFlat(ps)
  {
    if ps != [] {
      ShortenKeepsFlat(n, ps[1..]);
      assert ShortenAll(n, ps)[1..] == ShortenAll(n, ps[1..]);
    }
  }

  lemma NothingToReplace(n: nat)
    requires n > 0
    ensures ReplaceDotted(n, "") == ""
  {
  }

  lemma {:induction false} ColumnPass(ps: seq<Piece>)
    requires GoodPieces(ps)
    ensures ReplaceDotted(3, Render(ps)) == Render(ShortenAll(3, ps))
  {
    hide ReplaceDotted, DottedLen, LastName, QuotableName;
    NothingToReplace(3);
    if ps != [] {
      var t := Render(ps[1..]);
      ColumnPass(ps[1..]);
      RenderIsSafe(ps[1..]);
      assert ShortenAll(3, ps)[1..] == ShortenAll(3, ps[1..]);
      match ps[0]
      case Lit(x) => SkipPlain(3, x, t);
      case Slot(n) =>
        SlotStays(3, n, t);
      case Table(a, b) => SkipTable(a, b, t);
      case Column(a, b, c) => MatchColumn(a, b, c, t);
    }
  }

  lemma SlotStays(parts: nat, n: nat, t: string)
    requires parts > 0
    ensures ReplaceDotted(parts, "$" + (Decimal(n) + t)) == "$" + (Decimal(n) + ReplaceDotted(parts, t))
  {
    hide ReplaceDotted, Decimal;
    DecimalHasNoQuote(n);
    Assoc3("$", Decimal(n), t);
    Assoc3("$", Decimal(n), ReplaceDotted(parts, t));
    SkipPlain(parts, "$" + Decimal(n), t);
  }

  lemma {:induction false} TablePass(ps: seq<Piece>)
    requires GoodPieces(ps) && forall i :: 0 <= i < |ps| ==> !ps[i].Column?
    ensures ReplaceDotted(2, Render(ps)) == Render(ShortenAll(2, ps))
  {
    hide ReplaceDotted, DottedLen, LastName, QuotableName;
    NothingToReplace(2);
    if ps != [] {
      var t := Render(ps[1..]);
      TablePass(ps[1..]);
      RenderIsSafe(ps[1..]);
      assert ShortenAll(2, ps)[1..] == ShortenAll(2, ps[1..]);
      match ps[0]
      case Lit(x) => SkipPlain(2, x, t);
      case Slot(n) =>
        SlotStays(2, n, t);
      case Table(a, b) => MatchTable(a, b, t);
    }
  }

  lemma {:induction false} SlotlessPlain(x: string, t: string)
    requires '$' !in x
    ensures ReplaceSlots(x + t) == x + ReplaceSlots(t)
  {
    if x == "" {
      assert x + t == t;
    } else {
      assert (x + t)[0] == x[0] && (x + t)[1..] == x[1..] + t;
      SlotlessPlain(x[1..], t);
      assert x == [x[0]] + x[1..];
    }
  }

  lemma {:induction false} SlotPass(ps: seq<Piece>)
    requires GoodPieces(ps) && forall i :: 0 <= i < |ps| ==> ps[i].Lit? || ps[i].Slot?
    ensures ReplaceSlots(Render(ps)) == RenderFlat(ps)
  {
    if ps != [] {
      var t := Render(ps[1..]);
      SlotPass(ps[1..]);
      match ps[0]
      case Lit(x) => SlotlessPlain(x, t);
      case Slot(n) =>
        var s := Render(ps);
        assert s == "$" + (Decimal(n) + t) && s[1..] == Decimal(n) + t;
        assert t != "" ==> ps[1].Lit? && t[0] == ps[1].text[0];
        DigitsEnd(Decimal(n), t);
        assert s[1 + |Decimal(n)|..] == t;
    }
  }

  lemma {:induction false} RenderFlatIsPlain(ps: seq<Piece>)
    requires GoodPieces(ps)
    ensures '"' !in RenderFlat(ps) && '$' !in RenderFlat(ps)
  {
    if ps != [] {
      RenderFlatIsPlain(ps[1..]);
      assert '"' !in FlatPiece(ps[0]) && '$' !in FlatPiece(ps[0]);
    }
  }

  /** Text without quotes and slots passes through every rewrite unchanged. */
  lemma PlainTextIsFixed(s: string)
    requires '"' !in s && '$' !in s
    ensures FlattenBridge(s) == s && FlattenEngine(s) == StripTail(s) && FlattenParser(s) == StripTail(s)
  {
    assert s + "" == s;
    SkipPlain(3, s, "");
    SkipPlain(2, s, "");
    SkipPlain(1, s, "");
    SlotlessPlain(s, "");
  }

  /**
   Flattening is a homomorphism: whatever well-formed pieces the qualified text is
   rendered from, each of the three implementations yields the unqualified rendering
   with `?` for every slot, and running the engine's on top of the bridge's changes
   nothing more.
   */
  lemma FlatteningIsHomomorphic(ps: seq<Piece>)
    requires GoodPieces(ps)
    ensures FlattenBridge(Render(ps)) == RenderFlat(ps)
    ensures FlattenEngine(Render(ps)) == StripTail(RenderFlat(ps))
    ensures FlattenParser(Render(ps)) == StripTail(RenderFlat(ps))
    ensures FlattenEngine(FlattenBridge(Render(ps))) == FlattenEngine(Render(ps))
    ensures FlattenParser(FlattenBridge(Render(ps))) == FlattenParser(Render(ps))
  {
    var ps3 := ShortenAll(3, ps);
    ColumnPass(ps);
    ShortenKeepsGood(3, ps);
    ShortenKeepsFlat(3, ps);
    ShortenAllAt(3, ps);
    var ps2 := ShortenAll(2, ps3);
    TablePass(ps3);
    ShortenKeepsGood(2, ps3);
    ShortenKeepsFlat(2, ps3);
    ShortenAllAt(2, ps3);
    SlotPass(ps2);
    RenderFlatIsPlain(ps);
    PlainTextIsFixed(RenderFlat(ps));
    SkipPlain(1, RenderFlat(ps), "");
    assert RenderFlat(ps) + "" == RenderFlat(ps);
  }
}
