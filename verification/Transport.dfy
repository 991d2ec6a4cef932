/**
 How parameters and results cross the process boundary of the bridge: Python's
 `json.dumps` into `read_params_json`, and `exec_result_json` into `json.loads`.
 */
module Transport {
  import opened Text
  import opened Native
  import opened StdMap

  // ---------------------------------------------------------------- json.dumps

  predicate Printable(c: char) {
    ' ' <= c <= '~'
  }

  predicate AllPrintable(s: string) {
    forall i :: 0 <= i < |s| ==> Printable(s[i])
  }

  function HexDigit(d: nat): (c: char)
    requires d < 16
    ensures Printable(c) && c != '"' && c != '\\'
  {
    if d < 10 then (48 + d) as char else (87 + d) as char
  }

  /** `u` and four lower-case hexadecimal digits. */
  function Unicode(n: nat): (s: string)
    ensures |s| == 5
  {
    ['u', HexDigit(n / 4096 % 16), HexDigit(n / 256 % 16), HexDigit(n / 16 % 16), HexDigit(n % 16)]
  }

  /** What follows the backslash of a character that is not written as itself; two escapes beyond 0xFFFF. */
  function EscapeBody(c: char): (s: string)
    ensures s != ""
  {
    var n := c as int;
    if c == '"' then "\"" else if c == '\\' then "\\" else if c == '\n' then "n" else if c == '\r' then "r"
    else if c == '\t' then "t" else if n == 12 then "f" else if n == 8 then "b"
    else if n < 0x10000 then Unicode(n)
    else Unicode(0xD800 + (n - 0x10000) / 1024) + "\\" + Unicode(0xDC00 + (n - 0x10000) % 1024)
  }

  function DumpChar(c: char): string {
    if Printable(c) && c != '"' && c != '\\' then [c] else "\\" + EscapeBody(c)
  }

  function DumpChars(s: string): string {
    if s == "" then "" else DumpChar(s[0]) + DumpChars(s[1..])
  }

  function DumpString(s: string): string {
    "\"" + (DumpChars(s) + "\"")
  }

  function DumpStrings(ss: seq<string>): (r: seq<string>)
    ensures |r| == |ss| && forall i :: 0 <= i < |ss| ==> r[i] == DumpString(ss[i])
  {
    seq(|ss|, i requires 0 <= i < |ss| => DumpString(ss[i]))
  }

  /** `json.dumps` of a list of strings. */
  function DumpList(ss: seq<string>): string {
    "[" + (Join(DumpStrings(ss), ", ") + "]")
  }

  // ---------------------------------------------------------------- read_params_json

  /** `read_params_json` from a given state of its loop. */
  function ReadParams(raw: string, inStr: bool, cur: string): seq<string>
    decreases |raw|
  {
    if raw == "" then []
    else if !inStr then (if raw[0] == '"' then ReadParams(raw[1..], true, "") else ReadParams(raw[1..], false, cur))
    else if raw[0] == '\\' && |raw| > 1 then ReadParams(raw[2..], true, cur + [raw[1]])
    else if raw[0] == '"' then [cur] + ReadParams(raw[1..], false, cur)
    else ReadParams(raw[1..], true, cur + [raw[0]])
  }

  method ReadParamsJson(raw: string) returns (out: seq<string>)
    ensures out == ReadParams(raw, false, "")
  {
    out := [];
    var cur, inStr, i := "", false, 0;
    while i < |raw|
      invariant i <= |raw|
      invariant out + ReadParams(raw[i..], inStr, cur) == ReadParams(raw, false, "")
    {
      var c := raw[i];
      assert raw[i..][0] == c && raw[i..][1..] == raw[i + 1..];
      if !inStr {
        if c == '"' {
          inStr, cur := true, "";
        }
      } else if c == '\\' && i + 1 < |raw| {
        assert raw[i..][1] == raw[i + 1] && raw[i..][2..] == raw[i + 2..];
        i := i + 1;
        cur := cur + [raw[i]];
      } else if c == '"' {
        Assoc3(out, [cur], ReadParams(raw[i + 1..], false, cur));
        out := out + [cur];
        inStr := false;
      } else {
        cur := cur + [c];
      }
      i := i + 1;
    }
  }

  /** What the reader makes of one character: backslashes go, and what an escape stood for is not restored. */
  function Seen(c: char): string {
    if Printable(c) then [c]
    else
      var n := c as int;
      if n < 0x10000 then EscapeBody(c)
      else Unicode(0xD800 + (n - 0x10000) / 1024) + Unicode(0xDC00 + (n - 0x10000) % 1024)
  }

  function Received(s: string): string {
    if s == "" then "" else Seen(s[0]) + Received(s[1..])
  }

  function ReceivedAll(ss: seq<string>): (r: seq<string>)
    ensures |r| == |ss| && forall i :: 0 <= i < |ss| ==> r[i] == Received(ss[i])
  {
    seq(|ss|, i requires 0 <= i < |ss| => Received(ss[i]))
  }

  /** Characters that mean nothing to the reader inside a string. */
  predicate Ordinary(s: string) {
    forall i :: 0 <= i < |s| ==> s[i] != '"' && s[i] != '\\'
  }

  lemma {:induction false} ReadOrdinary(s: string, t: string, cur: string)
    requires Ordinary(s)
    ensures ReadParams(s + t, true, cur) == ReadParams(t, true, cur + s)
  {
    if s == "" {
      assert s + t == t && cur + s == cur;
    } else {
      assert (s + t)[0] == s[0] && (s + t)[1..] == s[1..] + t;
      ReadOrdinary(s[1..], t, cur + [s[0]]);
      assert cur + [s[0]] + s[1..] == cur + s;
    }
  }

  lemma ReadEscape(c: char, t: string, cur: string)
    ensures ReadParams("\\" + ([c] + t), true, cur) == ReadParams(t, true, cur + [c])
  {
    var raw := "\\" + ([c] + t);
    assert raw[0] == '\\' && raw[1] == c && raw[2..] == t;
  }

  lemma ReadUnicode(n: nat, t: string, cur: string)
    ensures ReadParams("\\" + (Unicode(n) + t), true, cur) == ReadParams(t, true, cur + Unicode(n))
  {
    var u := Unicode(n);
    assert u == ['u'] + u[1..];
    Assoc3(['u'], u[1..], t);
    ReadEscape('u', u[1..] + t, cur);
    ReadOrdinary(u[1..], t, cur + ['u']);
    assert cur + ['u'] + u[1..] == cur + u;
  }

  lemma ReadDumpedChar(c: char, t: string, cur: string)
    ensures ReadParams(DumpChar(c) + t, true, cur) == ReadParams(t, true, cur + Seen(c))
  {
    hide ReadParams, Unicode;
    var n := c as int;
    if Printable(c) && c != '"' && c != '\\' {
      ReadOrdinary([c], t, cur);
    } else {
      Assoc3("\\", EscapeBody(c), t);
      if 0x10000 <= n {
        var hi, lo := Unicode(0xD800 + (n - 0x10000) / 1024), Unicode(0xDC00 + (n - 0x10000) % 1024);
        assert EscapeBody(c) == hi + "\\" + lo;
        Assoc4(hi, "\\", lo, t);
        Assoc3(hi + "\\", lo, t);
        ReadUnicode(0xD800 + (n - 0x10000) / 1024, "\\" + (lo + t), cur);
        ReadUnicode(0xDC00 + (n - 0x10000) % 1024, t, cur + hi);
        Assoc3(cur, hi, lo);
      } else if |EscapeBody(c)| == 1 {
        ReadEscape(EscapeBody(c)[0], t, cur);
        assert EscapeBody(c) == [EscapeBody(c)[0]] == Seen(c);
      } else {
        ReadUnicode(n, t, cur);
      }
    }
  }

  lemma {:induction false} ReadDumpedChars(s: string, t: string, cur: string)
    ensures ReadParams(DumpChars(s) + t, true, cur) == ReadParams(t, true, cur + Received(s))
  {
    hide ReadParams, DumpChar, Seen;
    if s == "" {
      assert "" + t == t && cur + "" == cur;
    } else {
      Assoc3(DumpChar(s[0]), DumpChars(s[1..]), t);
      ReadDumpedChar(s[0], DumpChars(s[1..]) + t, cur);
      ReadDumpedChars(s[1..], t, cur + Seen(s[0]));
      Assoc3(cur, Seen(s[0]), Received(s[1..]));
    }
  }

  /** Outside strings the old contents of the buffer do not matter. */
  lemma {:induction false} BufferIsForgotten(raw: string, a: string, b: string)
    ensures ReadParams(raw, false, a) == ReadParams(raw, false, b)
  {
    if raw != "" && raw[0] != '"' {
      BufferIsForgotten(raw[1..], a, b);
    }
  }

  lemma ReadDumpedString(s: string, t: string)
    ensures ReadParams(DumpString(s) + t, false, "") == [Received(s)] + ReadParams(t, false, "")
  {
    hide DumpChars, Received;
    var raw := DumpString(s) + t;
    assert raw[0] == '"' && raw[1..] == DumpChars(s) + ("\"" + t) by {
      Assoc3("\"", DumpChars(s) + "\"", t);
      Assoc3(DumpChars(s), "\"", t);
    }
    ReadDumpedChars(s, "\"" + t, "");
    assert "" + Received(s) == Received(s);
    assert ("\"" + t)[0] == '"' && ("\"" + t)[1..] == t;
    BufferIsForgotten(t, Received(s), "");
  }

  lemma {:induction false} ReadDumpedList(ss: seq<string>)
    ensures ReadParams(Join(DumpStrings(ss), ", ") + "]", false, "") == ReceivedAll(ss)
  {
    hide DumpString, Received;
    if ss == [] {
      assert "" + "]" == "]" && "]"[1..] == "";
    } else {
      var rest := ss[1..];
      assert DumpStrings(ss)[1..] == DumpStrings(rest) && DumpStrings(ss)[0] == DumpString(ss[0]);
      assert ReceivedAll(ss) == [Received(ss[0])] + ReceivedAll(rest);
      if rest == [] {
        ReadDumpedString(ss[0], "]");
        assert "]"[1..] == "";
        assert [Received(ss[0])] + [] == [Received(ss[0])];
      } else {
        var t := Join(DumpStrings(rest), ", ") + "]";
        Assoc4(DumpString(ss[0]), ", ", Join(DumpStrings(rest), ", "), "]");
        ReadDumpedString(ss[0], ", " + t);
        assert (", " + t)[0] == ',' && (", " + t)[1..] == " " + t;
        assert (" " + t)[0] == ' ' && (" " + t)[1..] == t;
        ReadDumpedList(rest);
      }
    }
  }

  lemma {:induction false} ReceivedIsPrintable(s: string)
    ensures AllPrintable(Received(s)) && (AllPrintable(s) ==> Received(s) == s)
  {
    if s != "" {
      ReceivedIsPrintable(s[1..]);
      assert s == [s[0]] + s[1..];
    }
  }

  predicate AllListPrintable(ss: seq<string>) {
    forall i :: 0 <= i < |ss| ==> AllPrintable(ss[i])
  }

  /** What any list of parameters arrives as. */
  lemma ParamsArriveAs(ss: seq<string>)
    ensures ReadParams(DumpList(ss), false, "") == ReceivedAll(ss)
  {
    var t := Join(DumpStrings(ss), ", ") + "]";
    assert ("[" + t)[0] == '[' && ("[" + t)[1..] == t;
    ReadDumpedList(ss);
  }

  /** Parameters cross the boundary unchanged exactly when every character is printable ASCII. */
  lemma ParamsRoundTrip(ss: seq<string>)
    ensures ReadParams(DumpList(ss), false, "") == ss <==> AllListPrintable(ss)
  {
    hide ReadParams, DumpList, Received;
    ParamsArriveAs(ss);
    forall i | 0 <= i < |ss|
      ensures AllPrintable(Received(ss[i])) && (AllPrintable(ss[i]) ==> Received(ss[i]) == ss[i])
    {
      ReceivedIsPrintable(ss[i]);
    }
  }

  // ---------------------------------------------------------------- exec_result_json

  type Cells = seq<(string, string)>

  /** The columns of a row in key order. */
  function CellsOf(row: Row): (r: Cells)
    ensures |r| == |row| && forall i :: 0 <= i < |r| ==> r[i].0 in row && row[r[i].0] == r[i].1
    ensures forall k :: k in row ==> exists i :: 0 <= i < |r| && r[i].0 == k
  {
    var keys := SortedKeys(row.Keys);
    assert forall i :: 0 <= i < |keys| ==> keys[i] in keys;
    var r := seq(|keys|, i requires 0 <= i < |keys| => (keys[i], row[keys[i]]));
    assert forall k :: k in row ==> k in keys;
    assert forall i :: 0 <= i < |keys| ==> r[i].0 == keys[i];
    r
  }

  function AllCells(rows: seq<Row>): (r: seq<Cells>)
    ensures |r| == |rows| && forall i :: 0 <= i < |rows| ==> r[i] == CellsOf(rows[i])
  {
    seq(|rows|, i requires 0 <= i < |rows| => CellsOf(rows[i]))
  }

  function CellJson(c: (string, string)): string {
    "\"" + (c.0 + ("\":\"" + (c.1 + "\"")))
  }

  /** The rest of an object whose members are still to come: members, commas, the closing brace. */
  function CellsJson(cs: Cells): string {
    if cs == [] then "}" else CellJson(cs[0]) + (if |cs| == 1 then "}" else "," + CellsJson(cs[1..]))
  }

  function RowsJson(rows: seq<Cells>): string {
    if rows == [] then "]" else "{" + (CellsJson(rows[0]) + (if |rows| == 1 then "]" else "," + RowsJson(rows[1..])))
  }

  function ResultJson(r: ExecResult): string {
    "{\"rows\":[" + (RowsJson(AllCells(r.rows)) + (",\"affected\":" + (Decimal(r.affected) + "}")))
  }

  /** `exec_result_json`. */
  method ExecResultJson(result: ExecResult) returns (out: string)
    ensures out == ResultJson(result)
  {
    hide CellsOf, Decimal;
    var rows := result.rows;
    ghost var all := AllCells(rows);
    ghost var tail := ",\"affected\":" + (Decimal(result.affected) + "}");
    out := "{\"rows\":[";
    for i := 0 to |rows|
      invariant out + (RowsFrom(all, i) + tail) == ResultJson(result)
    {
      RowsFromStep(all, i, tail);
      if i > 0 {
        Assoc3(out, ",", "{" + (CellsJson(all[i]) + (RowsFrom(all, i + 1) + tail)));
        out := out + ",";
      }
      var row := ObjectJson(rows[i]);
      Assoc3(out, "{" + CellsJson(all[i]), RowsFrom(all, i + 1) + tail);
      Assoc3("{", CellsJson(all[i]), RowsFrom(all, i + 1) + tail);
      out := out + row;
    }
    Assoc3(out, "]", tail);
    Assoc4(out + "]", ",\"affected\":", Decimal(result.affected), "}");
    out := out + "]" + ",\"affected\":" + Decimal(result.affected) + "}";
  }

  /** What is still to be printed of the rows from the i-th on. */
  function RowsFrom(rows: seq<Cells>, i: nat): string
    requires i <= |rows|
  {
    if i == |rows| then "]" else if i == 0 then RowsJson(rows) else "," + RowsJson(rows[i..])
  }

  lemma RowsFromStep(rows: seq<Cells>, i: nat, tail: string)
    requires i < |rows|
    ensures
      var rest := "{" + (CellsJson(rows[i]) + (RowsFrom(rows, i + 1) + tail));
      RowsFrom(rows, i) + tail == if i > 0 then "," + rest else rest
  {
    hide CellsJson;
    var r := rows[i..];
    assert r[0] == rows[i] && r[1..] == rows[i + 1..] && (i == 0 ==> r == rows);
    var more := RowsFrom(rows, i + 1);
    assert RowsJson(r) == "{" + (CellsJson(rows[i]) + more);
    Assoc3("{", CellsJson(rows[i]) + more, tail);
    Assoc3(CellsJson(rows[i]), more, tail);
    Assoc3(",", RowsJson(r), tail);
  }

  function CellsFrom(cs: Cells, i: nat): string
    requires i <= |cs|
  {
    if i == |cs| then "}" else if i == 0 then CellsJson(cs) else "," + CellsJson(cs[i..])
  }

  lemma CellsFromStep(cs: Cells, i: nat)
    requires i < |cs|
    ensures
      var rest := CellJson(cs[i]) + CellsFrom(cs, i + 1);
      CellsFrom(cs, i) == if i > 0 then "," + rest else rest
  {
    hide CellJson;
    var r := cs[i..];
    assert r[0] == cs[i] && r[1..] == cs[i + 1..] && (i == 0 ==> r == cs);
  }

  /** The column loop. */
  method ObjectJson(row: Row) returns (out: string)
    ensures out == "{" + CellsJson(CellsOf(row))
  {
    hide CellJson;
    var cells := CellsOf(row);
    out := "{";
    for i := 0 to |cells|
      invariant out + CellsFrom(cells, i) == "{" + CellsJson(cells)
    {
      CellsFromStep(cells, i);
      var k, v := cells[i].0, cells[i].1;
      CellText(k, v);
      if i > 0 {
        Assoc3(out, ",", CellJson(cells[i]) + CellsFrom(cells, i + 1));
        out := out + ",";
      }
      Assoc3(out, CellJson(cells[i]), CellsFrom(cells, i + 1));
      out := out + ("\"" + k + "\":\"" + v + "\"");
    }
    out := out + "}";
  }

  lemma CellText(k: string, v: string)
    ensures CellJson((k, v)) == "\"" + k + "\":\"" + v + "\""
  {
    Assoc4("\"" + k, "\":\"", v, "\"");
    Assoc3("\"", k, "\":\"" + (v + "\""));
  }

  // ---------------------------------------------------------------- json.loads, as far as it is used

  function SkipWs(t: string): (r: string)
    ensures |r| <= |t|
  {
    if t != "" && (t[0] == ' ' || '\t' <= t[0] <= '\n' || t[0] == '\r') then SkipWs(t[1..]) else t
  }

  /** One structural character with white space in front. */
  function Eat(t: string, c: char): (r: Option<string>)
    ensures r.Some? ==> |r.value| < |t|
  {
    var u := SkipWs(t);
    if u != "" && u[0] == c then Some(u[1..]) else None
  }

  function HexValue(c: char): Option<nat> {
    if '0' <= c <= '9' then Some(c as int - 48)
    else if 'a' <= c <= 'f' then Some(c as int - 87)
    else if 'A' <= c <= 'F' then Some(c as int - 55)
    else None
  }

  function ReadHex(t: string): Option<nat>
    requires |t| == 4
  {
    var a, b, c, d := HexValue(t[0]), HexValue(t[1]), HexValue(t[2]), HexValue(t[3]);
    if a.Some? && b.Some? && c.Some? && d.Some? then Some(4096 * a.value + 256 * b.value + 16 * c.value + d.value) else None
  }

  /** Section 7 of RFC 8259, behind the backslash; lone surrogates are rejected. */
  function ReadJsonEscape(t: string): (r: Option<(char, string)>)
    ensures r.Some? ==> |r.value.1| < |t|
  {
    if t == "" then None
    else if t[0] == '"' || t[0] == '\\' || t[0] == '/' then Some((t[0], t[1..]))
    else if t[0] == 'b' then Some((8 as char, t[1..]))
    else if t[0] == 'f' then Some((12 as char, t[1..]))
    else if t[0] == 'n' then Some(('\n', t[1..]))
    else if t[0] == 'r' then Some(('\r', t[1..]))
    else if t[0] == 't' then Some(('\t', t[1..]))
    else if t[0] != 'u' || |t| < 5 || ReadHex(t[1..5]).None? then None
    else
      var n := ReadHex(t[1..5]).value;
      if n < 0xD800 || 0xE000 <= n < 0x10000 then Some((n as char, t[5..]))
      else if n < 0xDC00 && |t| >= 11 && t[5] == '\\' && t[6] == 'u' && ReadHex(t[7..11]).Some? then
        var m := ReadHex(t[7..11]).value;
        if 0xDC00 <= m < 0xE000 then Some(((0x10000 + 1024 * (n - 0xD800) + (m - 0xDC00)) as char, t[11..])) else None
      else None
  }

  /** The characters of a string and what follows its closing quote. */
  function ReadChars(t: string): (r: Option<(string, string)>)
    ensures r.Some? ==> |r.value.1| < |t|
    decreases |t|
  {
    if t == "" then None
    else if t[0] == '"' then Some(("", t[1..]))
    else if t[0] < ' ' then None
    else if t[0] == '\\' then
      var e := ReadJsonEscape(t[1..]);
      if e.None? then None
      else
        var r := ReadChars(e.value.1);
        if r.None? then None else Some(([e.value.0] + r.value.0, r.value.1))
    else
      var r := ReadChars(t[1..]);
      if r.None? then None else Some(([t[0]] + r.value.0, r.value.1))
  }

  function ReadString(t: string): (r: Option<(string, string)>)
    ensures r.Some? ==> |r.value.1| < |t|
  {
    var u := Eat(t, '"');
    if u.None? then None else ReadChars(u.value)
  }

  /** A key, a colon and a string. */
  function ReadCell(t: string): (r: Option<((string, string), string)>)
    ensures r.Some? ==> |r.value.1| < |t|
  {
    var k := ReadString(t);
    if k.None? then None
    else
      var u := Eat(k.value.1, ':');
      if u.None? then None
      else
        var v := ReadString(u.value);
        if v.None? then None else Some(((k.value.0, v.value.0), v.value.1))
  }

  function ReadMembers(t: string): (r: Option<(Cells, string)>)
    ensures r.Some? ==> |r.value.1| < |t|
    decreases |t|
  {
    var c := ReadCell(t);
    if c.None? then None
    else
      var close, comma := Eat(c.value.1, '}'), Eat(c.value.1, ',');
      if close.Some? then Some(([c.value.0], close.value))
      else if comma.None? then None
      else
        var more := ReadMembers(comma.value);
        if more.None? then None else Some(([c.value.0] + more.value.0, more.value.1))
  }

  function ReadObject(t: string): (r: Option<(Cells, string)>)
    ensures r.Some? ==> |r.value.1| < |t|
  {
    var open := Eat(t, '{');
    if open.None? then None
    else
      var close := Eat(open.value, '}');
      if close.Some? then Some(([], close.value)) else ReadMembers(open.value)
  }

  function ReadElements(t: string): (r: Option<(seq<Cells>, string)>)
    ensures r.Some? ==> |r.value.1| < |t|
    decreases |t|
  {
    var o := ReadObject(t);
    if o.None? then None
    else
      var close, comma := Eat(o.value.1, ']'), Eat(o.value.1, ',');
      if close.Some? then Some(([o.value.0], close.value))
      else if comma.None? then None
      else
        var more := ReadElements(comma.value);
        if more.None? then None else Some(([o.value.0] + more.value.0, more.value.1))
  }

  function ReadArray(t: string): (r: Option<(seq<Cells>, string)>)
    ensures r.Some? ==> |r.value.1| < |t|
  {
    var open := Eat(t, '[');
    if open.None? then None
    else
      var close := Eat(open.value, ']');
      if close.Some? then Some(([], close.value)) else ReadElements(open.value)
  }

  /** A number without a superfluous zero in front. */
  function ReadNumber(t: string): Option<(nat, string)> {
    var u := SkipWs(t);
    var k := DigitRun(u);
    var n := ReadDecimal(u[..k]);
    if u[..k] == Decimal(n) then Some((n, u[k..])) else None
  }

  /** A member name and its colon. */
  function EatKey(t: string, key: string): Option<string> {
    var k := ReadString(t);
    if k.None? || k.value.0 != key then None else Eat(k.value.1, ':')
  }

  /** The rows of the result object, each as its list of members, and the count. */
  function ReadResult(t: string): Option<(seq<Cells>, nat)> {
    var open := Eat(t, '{');
    var rowsAt := if open.None? then None else EatKey(open.value, "rows");
    var rows := if rowsAt.None? then None else ReadArray(rowsAt.value);
    var comma := if rows.None? then None else Eat(rows.value.1, ',');
    var countAt := if comma.None? then None else EatKey(comma.value, "affected");
    var count := if countAt.None? then None else ReadNumber(countAt.value);
    var close := if count.None? then None else Eat(count.value.1, '}');
    if close.None? || SkipWs(close.value) != "" then None else Some((rows.value.0, count.value.0))
  }

  // ---------------------------------------------------------------- exactly which results come back

  /** Text that stands for itself between JSON quotes. */
  predicate PlainJson(s: string) {
    forall i :: 0 <= i < |s| ==> s[i] >= ' ' && s[i] != '"' && s[i] != '\\'
  }

  predicate PlainCells(cs: Cells) {
    forall i :: 0 <= i < |cs| ==> PlainJson(cs[i].0) && PlainJson(cs[i].1)
  }

  predicate PlainRows(rows: seq<Cells>) {
    forall i :: 0 <= i < |rows| ==> PlainCells(rows[i])
  }

  lemma EatFront(c: char, t: string)
    requires c > ' '
    ensures Eat([c] + t, c) == Some(t)
    ensures forall d :: d != c ==> Eat([c] + t, d) == None
  {
    assert ([c] + t)[0] == c && ([c] + t)[1..] == t;
  }

  lemma {:induction false} ReadPlainChars(s: string, t: string)
    requires PlainJson(s)
    ensures ReadChars(s + ("\"" + t)) == Some((s, t))
  {
    var all := s + ("\"" + t);
    if s == "" {
      assert all == "\"" + t && all[0] == '"' && all[1..] == t;
    } else {
      assert all[0] == s[0] && all[1..] == s[1..] + ("\"" + t);
      ReadPlainChars(s[1..], t);
      assert [s[0]] + s[1..] == s;
    }
  }

  lemma ReadPlainString(s: string, t: string)
    requires PlainJson(s)
    ensures ReadString("\"" + (s + ("\"" + t))) == Some((s, t))
  {
    EatFront('"', s + ("\"" + t));
    ReadPlainChars(s, t);
  }

  lemma ReadPlainCell(c: (string, string), t: string)
    requires PlainJson(c.0) && PlainJson(c.1)
    ensures ReadCell(CellJson(c) + t) == Some((c, t))
    ensures Eat(CellJson(c) + t, '}') == None
  {
    hide ReadString, Eat;
    var value := "\"" + (c.1 + ("\"" + t));
    CellTail(c, t);
    var behind := ":" + value;
    ReadPlainString(c.0, behind);
    EatFront(':', value);
    ReadPlainString(c.1, t);
    EatFront('"', c.0 + ("\"" + behind));
  }

  lemma CellTail(c: (string, string), t: string)
    ensures CellJson(c) + t == "\"" + (c.0 + ("\"" + (":" + ("\"" + (c.1 + ("\"" + t))))))
  {
    var q, sep := "\"", "\":\"";
    Assoc3(q, c.0 + (sep + (c.1 + q)), t);
    Assoc3(c.0, sep + (c.1 + q), t);
    Assoc3(sep, c.1 + q, t);
    Assoc3(c.1, q, t);
    assert sep == q + (":" + q);
    Assoc3(q, ":" + q, c.1 + (q + t));
    Assoc3(":", q, c.1 + (q + t));
  }

  lemma {:induction false} ReadPlainMembers(cs: Cells, t: string)
    requires PlainCells(cs) && cs != []
    ensures ReadMembers(CellsJson(cs) + t) == Some((cs, t))
    ensures Eat(CellsJson(cs) + t, '}') == None
  {
    hide ReadCell, Eat, CellJson;
    if |cs| == 1 {
      Assoc3(CellJson(cs[0]), "}", t);
      ReadPlainCell(cs[0], "}" + t);
      EatFront('}', t);
      assert cs == [cs[0]];
    } else {
      var more := CellsJson(cs[1..]);
      Assoc3(CellJson(cs[0]), "," + more, t);
      Assoc3(",", more, t);
      ReadPlainCell(cs[0], "," + (more + t));
      EatFront(',', more + t);
      ReadPlainMembers(cs[1..], t);
      assert [cs[0]] + cs[1..] == cs;
    }
  }

  lemma ReadPlainObject(cs: Cells, t: string)
    requires PlainCells(cs)
    ensures ReadObject("{" + (CellsJson(cs) + t)) == Some((cs, t))
    ensures Eat("{" + (CellsJson(cs) + t), ']') == None
  {
    hide Eat, ReadMembers;
    EatFront('{', CellsJson(cs) + t);
    if cs == [] {
      EatFront('}', t);
    } else {
      ReadPlainMembers(cs, t);
    }
  }

  lemma {:induction false} ReadPlainElements(rows: seq<Cells>, t: string)
    requires PlainRows(rows) && rows != []
    ensures ReadElements(RowsJson(rows) + t) == Some((rows, t))
    ensures Eat(RowsJson(rows) + t, ']') == None
  {
    hide ReadObject, Eat, CellsJson, PlainCells;
    var row := CellsJson(rows[0]);
    if |rows| == 1 {
      Assoc3("{", row + "]", t);
      Assoc3(row, "]", t);
      ReadPlainObject(rows[0], "]" + t);
      EatFront(']', t);
      assert rows == [rows[0]];
    } else {
      var more := RowsJson(rows[1..]);
      Assoc3("{", row + ("," + more), t);
      Assoc3(row, "," + more, t);
      Assoc3(",", more, t);
      ReadPlainObject(rows[0], "," + (more + t));
      EatFront(',', more + t);
      ReadPlainElements(rows[1..], t);
      assert [rows[0]] + rows[1..] == rows;
    }
  }

  lemma ReadPlainArray(rows: seq<Cells>, t: string)
    requires PlainRows(rows)
    ensures ReadArray("[" + (RowsJson(rows) + t)) == Some((rows, t))
  {
    hide Eat, ReadElements;
    EatFront('[', RowsJson(rows) + t);
    if rows == [] {
      EatFront(']', t);
    } else {
      ReadPlainElements(rows, t);
    }
  }

  lemma ReadPrintedNumber(n: nat, t: string)
    requires t != "" && !IsDigit(t[0])
    ensures ReadNumber(Decimal(n) + t) == Some((n, t))
  {
    hide Decimal;
    var d := Decimal(n);
    assert (d + t)[0] == d[0] && IsDigit(d[0]);
    DigitsEnd(d, t);
    assert (d + t)[..|d|] == d && (d + t)[|d|..] == t;
    ReadDecimalPrints(n);
  }

  lemma EatPrintedKey(key: string, t: string)
    requires PlainJson(key)
    ensures EatKey("\"" + (key + ("\"" + (":" + t))), key) == Some(t)
  {
    hide Eat, ReadString;
    ReadPlainString(key, ":" + t);
    EatFront(':', t);
  }

  /** The text around the printed rows and the count. */
  function ResultText(rows: string, affected: nat): string {
    "{\"rows\":[" + (rows + (",\"affected\":" + (Decimal(affected) + "}")))
  }

  /** What the reader makes of a result depends on what it makes of the array of rows. */
  lemma ReadResultText(rows: string, affected: nat)
    ensures
      var rest := ",\"affected\":" + (Decimal(affected) + "}");
      var r := ReadArray("[" + (rows + rest));
      && (r.None? ==> ReadResult(ResultText(rows, affected)).None?)
      && (r.Some? && r.value.1 == rest ==> ReadResult(ResultText(rows, affected)) == Some((r.value.0, affected)))
  {
    hide Eat, EatKey, ReadArray, ReadNumber, Decimal;
    var last := Decimal(affected) + "}";
    var count := "\"" + ("affected" + ("\"" + (":" + last)));
    var list := "[" + (rows + ("," + count));
    ResultLayout(rows, last);
    EatFront('{', "\"" + ("rows" + ("\"" + (":" + list))));
    EatPrintedKey("rows", list);
    EatFront(',', count);
    EatPrintedKey("affected", last);
    ReadPrintedNumber(affected, "}");
    EatFront('}', "");
    assert "}" + "" == "}";
  }

  /** Printed plain members come back in their order, whatever row they make up. */
  lemma ReadPlainText(rows: seq<Cells>, affected: nat)
    requires PlainRows(rows)
    ensures ReadResult(ResultText(RowsJson(rows), affected)) == Some((rows, affected))
  {
    hide ReadArray, ReadResult, Decimal, RowsJson, PlainRows;
    ReadPlainArray(rows, ",\"affected\":" + (Decimal(affected) + "}"));
    ReadResultText(RowsJson(rows), affected);
  }

  lemma ReadPlainResult(r: ExecResult)
    requires PlainRows(AllCells(r.rows))
    ensures ReadResult(ResultJson(r)) == Some((AllCells(r.rows), r.affected))
  {
    hide ReadResult, Decimal, RowsJson, PlainRows;
    ReadPlainText(AllCells(r.rows), r.affected);
  }

  // A quote inside a value ends it early; unless what follows looks like more JSON, nothing can be read.

  /** A value that the reader takes for a shorter one with junk behind it. */
  predicate BreaksOff(value: string, p: string, q: string) {
    value == p + ("\"" + q) && PlainJson(p) && q != "" && q[0] > ' ' && q[0] != ',' && q[0] != '}'
  }

  lemma ReadBrokenCell(k: string, p: string, q: string, t: string)
    requires PlainJson(k) && PlainJson(p)
    ensures ReadCell(CellJson((k, p + ("\"" + q))) + t) == Some(((k, p), q + ("\"" + t)))
  {
    hide ReadCell;
    var behind := q + ("\"" + t);
    ReadPlainCell((k, p), behind);
    var v := p + ("\"" + q);
    CellTail((k, v), t);
    CellTail((k, p), behind);
    assert v + ("\"" + t) == p + ("\"" + behind) by {
      Assoc3(p, "\"" + q, "\"" + t);
      Assoc3("\"", q, "\"" + t);
    }
  }

  lemma EatOther(t: string, c: char)
    requires t != "" && t[0] > ' ' && t[0] != c
    ensures Eat(t, c) == None
  {
  }

  lemma {:induction false} ReadBrokenMembers(cs: Cells, i: nat, p: string, q: string, t: string)
    requires i < |cs| && BreaksOff(cs[i].1, p, q) && PlainJson(cs[i].0)
    requires forall j :: 0 <= j < i ==> PlainJson(cs[j].0) && PlainJson(cs[j].1)
    ensures ReadMembers(CellsJson(cs) + t) == None && Eat(CellsJson(cs) + t, '}') == None
    decreases i
  {
    hide ReadCell, Eat, CellJson, PlainJson;
    var rest := if |cs| == 1 then "}" else "," + CellsJson(cs[1..]);
    Assoc3(CellJson(cs[0]), rest, t);
    EatOther(CellsJson(cs) + t, '}') by {
      CellTail(cs[0], rest + t);
    }
    if i == 0 {
      ReadBrokenCell(cs[0].0, p, q, rest + t);
      var behind := q + ("\"" + (rest + t));
      assert behind[0] == q[0];
      EatOther(behind, '}');
      EatOther(behind, ',');
    } else {
      var more := CellsJson(cs[1..]);
      Assoc3(",", more, t);
      ReadPlainCell(cs[0], "," + (more + t));
      EatFront(',', more + t);
      ReadBrokenMembers(cs[1..], i - 1, p, q, t);
    }
  }

  /** Plain rows, and then one whose first value that is not plain breaks off. */
  predicate BrokenAt(rows: seq<Cells>, n: nat, i: nat, p: string, q: string) {
    && n < |rows| && i < |rows[n]| && PlainRows(rows[..n]) && BreaksOff(rows[n][i].1, p, q) && PlainJson(rows[n][i].0)
    && forall j :: 0 <= j < i ==> PlainJson(rows[n][j].0) && PlainJson(rows[n][j].1)
  }

  lemma {:induction false} ReadBrokenElements(rows: seq<Cells>, n: nat, i: nat, p: string, q: string, t: string)
    requires BrokenAt(rows, n, i, p, q)
    ensures ReadElements(RowsJson(rows) + t) == None && Eat(RowsJson(rows) + t, ']') == None
    decreases n
  {
    hide ReadMembers, Eat, CellsJson, BreaksOff, PlainJson;
    var row := CellsJson(rows[0]);
    var rest := if |rows| == 1 then "]" else "," + RowsJson(rows[1..]);
    Assoc3("{", row + rest, t);
    Assoc3(row, rest, t);
    EatFront('{', row + (rest + t));
    if n == 0 {
      ReadBrokenMembers(rows[0], i, p, q, rest + t);
    } else {
      var more := RowsJson(rows[1..]);
      Assoc3(",", more, t);
      assert PlainCells(rows[..n][0]);
      ReadPlainObject(rows[0], "," + (more + t));
      EatFront(',', more + t);
      assert rows[1..][..n - 1] == rows[..n][1..];
      ReadBrokenElements(rows[1..], n - 1, i, p, q, t);
    }
  }

  /** One such value makes the whole result unreadable. */
  lemma BrokenResultIsUnreadable(rows: seq<Cells>, n: nat, i: nat, p: string, q: string, affected: nat)
    requires BrokenAt(rows, n, i, p, q)
    ensures ReadResult(ResultText(RowsJson(rows), affected)) == None
  {
    hide ReadResult, ReadElements, Eat, Decimal, RowsJson, BrokenAt, ResultText;
    var t := ",\"affected\":" + (Decimal(affected) + "}");
    ReadBrokenElements(rows, n, i, p, q, t);
    EatFront('[', RowsJson(rows) + t);
    ReadResultText(RowsJson(rows), affected);
  }

  lemma ResultLayout(rows: string, last: string)
    ensures "{\"rows\":[" + (rows + (",\"affected\":" + last)) ==
            "{" + ("\"" + ("rows" + ("\"" + (":" + ("[" + (rows + ("," + ("\"" + ("affected" + ("\"" + (":" + last)))))))))))
    ensures ",\"affected\":" + last == "," + ("\"" + ("affected" + ("\"" + (":" + last))))
  {
    var q := "\"";
    assert ",\"affected\":" == "," + (q + ("affected" + (q + ":")));
    Assoc3(",", q + ("affected" + (q + ":")), last);
    Assoc3(q, "affected" + (q + ":"), last);
    Assoc3("affected", q + ":", last);
    Assoc3(q, ":", last);
    var t := rows + (",\"affected\":" + last);
    assert "{\"rows\":[" == "{" + (q + ("rows" + (q + (":" + "["))));
    Assoc3("{", q + ("rows" + (q + (":" + "["))), t);
    Assoc3(q, "rows" + (q + (":" + "[")), t);
    Assoc3("rows", q + (":" + "["), t);
    Assoc3(q, ":" + "[", t);
    Assoc3(":", "[", t);
  }

  // Reading never yields more characters than it consumes; as many only when nothing was escaped or skipped.

  lemma {:induction false} CharsConsumed(t: string)
    ensures ReadChars(t).Some? ==>
      var v, rest := ReadChars(t).value.0, ReadChars(t).value.1;
      |t| >= |rest| + |v| + 1 && (|t| == |rest| + |v| + 1 ==> PlainJson(v))
    decreases |t|
  {
    if t != "" && t[0] != '"' && t[0] >= ' ' {
      if t[0] == '\\' {
        var e := ReadJsonEscape(t[1..]);
        if e.Some? {
          CharsConsumed(e.value.1);
        }
      } else {
        CharsConsumed(t[1..]);
      }
    }
  }

  lemma StringConsumed(t: string)
    ensures ReadString(t).Some? ==>
      var v, rest := ReadString(t).value.0, ReadString(t).value.1;
      |t| >= |rest| + |v| + 2 && (|t| == |rest| + |v| + 2 ==> PlainJson(v))
  {
    hide ReadChars, PlainJson;
    if Eat(t, '"').Some? {
      CharsConsumed(Eat(t, '"').value);
    }
  }

  lemma CellConsumed(t: string)
    ensures ReadCell(t).Some? ==>
      var c, rest := ReadCell(t).value.0, ReadCell(t).value.1;
      && |t| >= |rest| + |CellJson(c)|
      && (|t| == |rest| + |CellJson(c)| ==> PlainJson(c.0) && PlainJson(c.1))
  {
    hide ReadString, Eat, PlainJson;
    StringConsumed(t);
    if ReadString(t).Some? {
      var u := Eat(ReadString(t).value.1, ':');
      if u.Some? {
        StringConsumed(u.value);
      }
    }
  }

  lemma {:induction false} MembersConsumed(t: string)
    ensures ReadMembers(t).Some? ==>
      var cs, rest := ReadMembers(t).value.0, ReadMembers(t).value.1;
      && cs != [] && |t| >= |rest| + |CellsJson(cs)|
      && (|t| == |rest| + |CellsJson(cs)| ==> PlainCells(cs))
    decreases |t|
  {
    hide ReadCell, Eat, PlainJson, CellJson;
    CellConsumed(t);
    if ReadCell(t).Some? {
      var c, rest := ReadCell(t).value.0, ReadCell(t).value.1;
      var close, comma := Eat(rest, '}'), Eat(rest, ',');
      if close.None? && comma.Some? {
        MembersConsumed(comma.value);
        if ReadMembers(comma.value).Some? {
          var more := ReadMembers(comma.value).value.0;
          assert ([c] + more)[0] == c && ([c] + more)[1..] == more;
          assert forall i :: 1 <= i < |more| + 1 ==> ([c] + more)[i] == more[i - 1];
        }
      }
    }
  }

  lemma ObjectConsumed(t: string)
    ensures ReadObject(t).Some? ==>
      var cs, rest := ReadObject(t).value.0, ReadObject(t).value.1;
      && |t| >= |rest| + 1 + |CellsJson(cs)|
      && (|t| == |rest| + 1 + |CellsJson(cs)| ==> PlainCells(cs))
  {
    hide ReadMembers, Eat;
    if Eat(t, '{').Some? {
      MembersConsumed(Eat(t, '{').value);
    }
  }

  lemma {:induction false} ElementsConsumed(t: string)
    ensures ReadElements(t).Some? ==>
      var rows, rest := ReadElements(t).value.0, ReadElements(t).value.1;
      && rows != [] && |t| >= |rest| + |RowsJson(rows)|
      && (|t| == |rest| + |RowsJson(rows)| ==> PlainRows(rows))
    decreases |t|
  {
    hide ReadObject, Eat, PlainCells, CellsJson;
    ObjectConsumed(t);
    if ReadObject(t).Some? {
      var row, rest := ReadObject(t).value.0, ReadObject(t).value.1;
      var close, comma := Eat(rest, ']'), Eat(rest, ',');
      if close.None? && comma.Some? {
        ElementsConsumed(comma.value);
        if ReadElements(comma.value).Some? {
          var more := ReadElements(comma.value).value.0;
          assert ([row] + more)[0] == row && ([row] + more)[1..] == more;
          assert forall i :: 1 <= i < |more| + 1 ==> ([row] + more)[i] == more[i - 1];
        }
      }
    }
  }

  lemma ArrayConsumed(t: string)
    ensures ReadArray(t).Some? ==>
      var rows, rest := ReadArray(t).value.0, ReadArray(t).value.1;
      && |t| >= |rest| + 1 + |RowsJson(rows)|
      && (|t| == |rest| + 1 + |RowsJson(rows)| ==> PlainRows(rows))
  {
    hide ReadElements, Eat, PlainCells;
    if Eat(t, '[').Some? {
      ElementsConsumed(Eat(t, '[').value);
    }
  }

  lemma KeyConsumed(t: string, key: string)
    ensures EatKey(t, key).Some? ==> |t| >= |EatKey(t, key).value| + |key| + 3
  {
    hide ReadString, Eat;
    StringConsumed(t);
  }

  lemma NumberConsumed(t: string)
    ensures ReadNumber(t).Some? ==> |t| >= |ReadNumber(t).value.1| + |Decimal(ReadNumber(t).value.0)|
  {
    hide Decimal, ReadDecimal;
  }

  lemma ResultConsumed(t: string)
    requires ReadResult(t).Some?
    ensures
      var rows, n := ReadResult(t).value.0, ReadResult(t).value.1;
      var size := |"{\"rows\":[" + (RowsJson(rows) + (",\"affected\":" + (Decimal(n) + "}")))|;
      |t| >= size && (|t| == size ==> PlainRows(rows))
  {
    hide ReadString, Eat, EatKey, ReadArray, ReadNumber, Decimal, RowsJson, PlainRows;
    var open := Eat(t, '{').value;
    KeyConsumed(open, "rows");
    var rowsAt := EatKey(open, "rows").value;
    ArrayConsumed(rowsAt);
    var comma := Eat(ReadArray(rowsAt).value.1, ',').value;
    KeyConsumed(comma, "affected");
    NumberConsumed(EatKey(comma, "affected").value);
  }

  /**
   A result crosses the boundary exactly when none of its keys and values needs an
   escape: the printer writes none, so a quote, a backslash or a control character
   makes the reader fail or see other rows.
   */
  lemma ResultRoundTrip(r: ExecResult)
    ensures ReadResult(ResultJson(r)) == Some((AllCells(r.rows), r.affected)) <==> PlainRows(AllCells(r.rows))
  {
    hide ReadResult, RowsJson, Decimal, PlainRows;
    if PlainRows(AllCells(r.rows)) {
      ReadPlainResult(r);
    }
    if ReadResult(ResultJson(r)) == Some((AllCells(r.rows), r.affected)) {
      ResultConsumed(ResultJson(r));
    }
  }
}
