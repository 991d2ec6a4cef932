/**
 The string primitives that the C++ and Python sources share: the C-locale
 character classes, `trim`, `std::string::find`, splitting, joining and decimal
 numerals. Strings are `seq<char>`; every search and every cut is exact, so the
 theorems of the other modules are about the very text the engine scans.
 */
module Text {

  datatype Option<+T> = None | Some(value: T)

  /** `std::isspace` in the C locale: blank, tab, newline, vertical tab, form feed, return. */
  predicate IsSpace(c: char) {
    c == ' ' || '\t' <= c <= '\r'
  }

  predicate IsDigit(c: char) {
    '0' <= c <= '9'
  }

  predicate IsAlpha(c: char) {
    'a' <= c <= 'z' || 'A' <= c <= 'Z'
  }

  function ToLower(c: char): char {
    if 'A' <= c <= 'Z' then (c as int + 32) as char else c
  }

  function Lower(s: string): (r: string)
    ensures |r| == |s|
    ensures forall i :: 0 <= i < |s| ==> r[i] == ToLower(s[i])
  {
    seq(|s|, i requires 0 <= i < |s| => ToLower(s[i]))
  }

  lemma LowerConcat(a: string, b: string)
    ensures Lower(a + b) == Lower(a) + Lower(b)
  {
  }

  // ---------------------------------------------------------------- prefixes and occurrences

  predicate StartsWith(s: string, p: string) {
    |p| <= |s| && s[..|p|] == p
  }

  /** `p` occurs in `s` at index `i`. */
  predicate At(s: string, p: string, i: int) {
    0 <= i && i + |p| <= |s| && s[i..i + |p|] == p
  }

  /** `s.find(p, i)`; `None` is `npos`. */
  function FindFrom(s: string, p: string, i: nat): (r: Option<nat>)
    ensures r.None? ==> forall j :: i <= j ==> !At(s, p, j)
    ensures r.Some? ==> i <= r.value && At(s, p, r.value) && forall j :: i <= j < r.value ==> !At(s, p, j)
    decreases |s| - i
  {
    if i + |p| > |s| then None
    else if At(s, p, i) then Some(i)
    else FindFrom(s, p, i + 1)
  }

  function Find(s: string, p: string): (r: Option<nat>)
    ensures r.None? ==> forall j :: !At(s, p, j)
    ensures r.Some? ==> At(s, p, r.value) && forall j :: 0 <= j < r.value ==> !At(s, p, j)
  {
    FindFrom(s, p, 0)
  }

  function Shift(r: Option<nat>, n: nat): Option<nat> {
    if r.None? then None else Some(r.value + n)
  }

  /** `s.rfind(c)` for one character. */
  function RFindChar(s: string, c: char): (r: Option<nat>)
    ensures r.None? <==> c !in s
    ensures r.Some? ==> r.value < |s| && s[r.value] == c && c !in s[r.value + 1..]
  {
    if s == "" then None
    else if s[|s| - 1] == c then Some(|s| - 1)
    else
      assert s == s[..|s| - 1] + [s[|s| - 1]];
      var r := RFindChar(s[..|s| - 1], c);
      if r.Some? then
        assert s[r.value + 1..] == s[..|s| - 1][r.value + 1..] + [s[|s| - 1]];
        r
      else r
  }

  /** Text in which no occurrence starts is skipped over. */
  lemma FindPast(x: string, t: string, p: string)
    requires forall j :: 0 <= j < |x| ==> !At(x + t, p, j)
    ensures Find(x + t, p) == Shift(Find(t, p), |x|)
  {
    forall j | |x| <= j
      ensures At(x + t, p, j) == At(t, p, j - |x|)
    {
    }
    if Find(t, p).Some? {
      assert At(x + t, p, Find(t, p).value + |x|);
    }
  }

  /** Text without the first character of the pattern is skipped over. */
  lemma FindSkip(x: string, t: string, p: string)
    requires p != "" && p[0] !in x
    ensures Find(x + t, p) == Shift(Find(t, p), |x|)
  {
    forall j | 0 <= j < |x|
      ensures !At(x + t, p, j)
    {
      assert (x + t)[j] == x[j] != p[0];
      assert j + |p| <= |x + t| ==> (x + t)[j..j + |p|][0] == (x + t)[j];
    }
    FindPast(x, t, p);
  }

  /** No occurrence at the front: the search continues one character on. */
  lemma FindStep(c: char, t: string, p: string)
    requires !StartsWith([c] + t, p)
    ensures Find([c] + t, p) == Shift(Find(t, p), 1)
  {
    FindPast([c], t, p);
  }

  /** A pattern holding a character that the text lacks does not occur. */
  lemma FindAbsent(s: string, p: string, k: nat)
    requires k < |p| && p[k] !in s
    ensures Find(s, p) == None
  {
    forall i | 0 <= i && i + |p| <= |s|
      ensures !At(s, p, i)
    {
      assert s[i..i + |p|][k] == s[i + k] != p[k];
    }
  }

  lemma FindFront(s: string, p: string)
    requires StartsWith(s, p)
    ensures Find(s, p) == Some(0)
  {
    assert At(s, p, 0);
  }

  lemma Assoc3<T>(a: seq<T>, b: seq<T>, c: seq<T>)
    ensures a + b + c == a + (b + c)
  {
  }

  lemma Assoc4<T>(a: seq<T>, b: seq<T>, c: seq<T>, d: seq<T>)
    ensures a + b + c + d == a + (b + (c + d))
  {
    Assoc3(a + b, c, d);
    Assoc3(a, b, c + d);
  }

  // ---------------------------------------------------------------- trim

  function TrimLeft(s: string): string {
    if s != "" && IsSpace(s[0]) then TrimLeft(s[1..]) else s
  }

  function TrimRight(s: string): string {
    if s != "" && IsSpace(s[|s| - 1]) then TrimRight(s[..|s| - 1]) else s
  }

  function Trim(s: string): string {
    TrimRight(TrimLeft(s))
  }

  /** Nothing to trim at either end. */
  predicate Trimmed(s: string) {
    s == "" || (!IsSpace(s[0]) && !IsSpace(s[|s| - 1]))
  }

  predicate AllSpace(s: string) {
    forall c :: c in s ==> IsSpace(c)
  }

  lemma {:induction false} TrimLeftCuts(s: string)
    ensures var r := TrimLeft(s); |r| <= |s| && r == s[|s| - |r|..] && (r != "" ==> !IsSpace(r[0]))
  {
    if s != "" && IsSpace(s[0]) {
      TrimLeftCuts(s[1..]);
    }
  }

  lemma {:induction false} TrimRightCuts(s: string)
    ensures var r := TrimRight(s); |r| <= |s| && r == s[..|r|] && (r != "" ==> !IsSpace(r[|r| - 1]))
  {
    if s != "" && IsSpace(s[|s| - 1]) {
      TrimRightCuts(s[..|s| - 1]);
    }
  }

  /** `trim` cuts a piece out of the text that has nothing more to trim. */
  lemma TrimIsTrimmed(s: string)
    ensures Trimmed(Trim(s)) && |Trim(s)| <= |s|
  {
    TrimLeftCuts(s);
    TrimRightCuts(TrimLeft(s));
  }

  lemma {:induction false} TrimLeftPadded(a: string, s: string)
    requires AllSpace(a)
    ensures TrimLeft(a + s) == TrimLeft(s)
  {
    if a == "" {
      assert a + s == s;
    } else {
      assert (a + s)[0] == a[0] && (a + s)[1..] == a[1..] + s;
      TrimLeftPadded(a[1..], s);
    }
  }

  lemma {:induction false} TrimRightPadded(s: string, b: string)
    requires AllSpace(b)
    ensures TrimRight(s + b) == TrimRight(s)
  {
    if b == "" {
      assert s + b == s;
    } else {
      var n := |s + b|;
      assert (s + b)[n - 1] == b[|b| - 1] && (s + b)[..n - 1] == s + b[..|b| - 1];
      TrimRightPadded(s, b[..|b| - 1]);
    }
  }

  /** Padding on either side of a trimmed core is exactly what `trim` removes. */
  lemma TrimPadded(a: string, s: string, b: string)
    requires AllSpace(a) && AllSpace(b) && s != "" && Trimmed(s)
    ensures Trim(a + s + b) == s
  {
    assert a + s + b == a + (s + b);
    TrimLeftPadded(a, s + b);
    assert (s + b)[0] == s[0];
    TrimRightPadded(s, b);
  }

  /** The two `remove_prefix` and `remove_suffix` loops of `trim`. */
  method TrimView(view: string) returns (s: string)
    ensures s == Trim(view)
  {
    s := view;
    while s != "" && IsSpace(s[0])
      invariant TrimLeft(s) == TrimLeft(view)
      decreases |s|
    {
      s := s[1..];
    }
    while s != "" && IsSpace(s[|s| - 1])
      invariant TrimRight(s) == Trim(view)
      decreases |s|
    {
      s := s[..|s| - 1];
    }
  }

  // ---------------------------------------------------------------- join

  function Join(ws: seq<string>, sep: string): string {
    if |ws| == 0 then ""
    else if |ws| == 1 then ws[0]
    else ws[0] + sep + Join(ws[1..], sep)
  }

  lemma {:induction false} JoinSplit(ws: seq<string>, k: nat, sep: string)
    requires 1 <= k < |ws|
    ensures Join(ws, sep) == Join(ws[..k], sep) + sep + Join(ws[k..], sep)
  {
    if k == 1 {
      assert ws[..1] == [ws[0]];
    } else {
      JoinSplit(ws[1..], k - 1, sep);
      assert ws[1..][..k - 1] == ws[..k][1..] && ws[1..][k - 1..] == ws[k..];
    }
  }

  lemma JoinConcat(a: seq<string>, b: seq<string>, sep: string)
    requires a != [] && b != []
    ensures Join(a + b, sep) == Join(a, sep) + sep + Join(b, sep)
  {
    JoinSplit(a + b, |a|, sep);
    assert (a + b)[..|a|] == a && (a + b)[|a|..] == b;
  }

  function MapLower(ws: seq<string>): (r: seq<string>)
    ensures |r| == |ws| && forall i :: 0 <= i < |ws| ==> r[i] == Lower(ws[i])
  {
    seq(|ws|, i requires 0 <= i < |ws| => Lower(ws[i]))
  }

  lemma {:induction false} LowerJoin(ws: seq<string>)
    ensures Lower(Join(ws, " ")) == Join(MapLower(ws), " ")
  {
    if |ws| > 1 {
      LowerConcat(ws[0] + " ", Join(ws[1..], " "));
      LowerConcat(ws[0], " ");
      LowerJoin(ws[1..]);
      assert MapLower(ws)[1..] == MapLower(ws[1..]);
      assert Lower(" ") == " ";
    } else if |ws| == 1 {
      assert Join(MapLower(ws), " ") == MapLower(ws)[0];
    }
  }

  /** A character of a join is a character of a part or of the separator. */
  lemma {:induction false} JoinAvoids(ws: seq<string>, sep: string, c: char)
    requires c !in sep && forall i :: 0 <= i < |ws| ==> c !in ws[i]
    ensures c !in Join(ws, sep)
  {
    if |ws| > 1 {
      JoinAvoids(ws[1..], sep, c);
      assert c !in ws[0] + sep;
    }
  }

  // ---------------------------------------------------------------- words

  /** Non-empty and free of white space. */
  predicate IsWord(s: string) {
    s != "" && forall i :: 0 <= i < |s| ==> !IsSpace(s[i])
  }

  predicate Words(ws: seq<string>) {
    forall i :: 0 <= i < |ws| ==> IsWord(ws[i])
  }

  lemma {:induction false} JoinWordsTrimmed(ws: seq<string>)
    requires Words(ws)
    ensures Trimmed(Join(ws, " "))
    ensures ws != [] ==> Join(ws, " ") != "" && Join(ws, " ")[0] == ws[0][0]
    ensures ws != [] ==> var l := ws[|ws| - 1]; Join(ws, " ")[|Join(ws, " ")| - 1] == l[|l| - 1]
  {
    if |ws| > 1 {
      JoinWordsTrimmed(ws[1..]);
      assert ws[0] + " " + Join(ws[1..], " ") == Join(ws, " ");
    }
  }

  /** The first interior word (neither first nor last) equal to `w`. */
  function WordIndex(ws: seq<string>, w: string): (r: Option<nat>)
    ensures r.Some? ==> 1 <= r.value < |ws| - 1 && ws[r.value] == w
    ensures r.Some? ==> forall i :: 1 <= i < r.value ==> ws[i] != w
    ensures r.None? ==> forall i :: 1 <= i < |ws| - 1 ==> ws[i] != w
  {
    if |ws| < 3 then None
    else if ws[1] == w then Some(1)
    else
      var r := WordIndex(ws[1..], w);
      assert forall i :: 1 <= i < |ws| - 2 ==> ws[1..][i] == ws[i + 1];
      if r.None? then
        assert forall i :: 2 <= i < |ws| - 1 ==> ws[i] == ws[1..][i - 1];
        None
      else
        assert forall i :: 2 <= i < r.value + 1 ==> ws[i] == ws[1..][i - 1];
        Some(r.value + 1)
  }

  /** Two texts cut at their first blank. */
  lemma BlankSplit(a: string, x: string, b: string, y: string)
    requires ' ' !in a && ' ' !in b
    requires a + " " + x == b + " " + y
    ensures a == b && x == y
  {
    var t, u := a + " " + x, b + " " + y;
    assert t[|a|] == ' ' && u[|b|] == ' ';
    assert |a| == |b|;
    assert t[..|a|] == a && u[..|b|] == b && t[|a| + 1..] == x && u[|b| + 1..] == y;
  }

  lemma WordAtFront(ws: seq<string>, w: string)
    requires |ws| >= 1 && Words(ws) && IsWord(w)
    ensures StartsWith(Join(ws, " "), w + " ") <==> |ws| >= 2 && ws[0] == w
  {
    var t := Join(ws, " ");
    if |ws| >= 2 {
      var rest := Join(ws[1..], " ");
      assert t == ws[0] + " " + rest;
      if StartsWith(t, w + " ") {
        assert t == w + " " + t[|w| + 1..];
        BlankSplit(ws[0], rest, w, t[|w| + 1..]);
      }
    } else {
      assert t == ws[0];
      assert |w| < |t| ==> t[..|w| + 1][|w|] == t[|w|];
    }
  }

  lemma BlankPrefix(t: string, w: string)
    ensures StartsWith(" " + t, " " + w + " ") <==> StartsWith(t, w + " ")
  {
    if |w| + 1 <= |t| {
      assert (" " + t)[..|w| + 2] == " " + t[..|w| + 1];
      assert " " + w + " " == " " + (w + " ");
      if " " + t[..|w| + 1] == " " + (w + " ") {
        assert (" " + t[..|w| + 1])[1..] == (" " + (w + " "))[1..];
        assert t[..|w| + 1] == w + " ";
      }
    }
  }

  /** Where `" w "` starts in the blank-separated words. */
  function WordPosition(ws: seq<string>, w: string): Option<nat> {
    var k := WordIndex(ws, w);
    if k.None? then None else Some(|Join(ws[..k.value], " ")|)
  }

  lemma WordPositionStep(ws: seq<string>, w: string)
    requires |ws| >= 2
    ensures WordPosition(ws, w) ==
            if |ws| >= 3 && ws[1] == w then Some(|ws[0]|) else Shift(WordPosition(ws[1..], w), |ws[0]| + 1)
  {
    var k := WordIndex(ws, w);
    if |ws| >= 3 && ws[1] == w {
      assert ws[..1] == [ws[0]];
    } else if k.Some? {
      assert ws[..k.value][1..] == ws[1..][..k.value - 1];
      assert ws[..k.value][0] == ws[0];
    }
  }

  /**
   Searching blank-separated words for `" w "` finds the first interior word equal
   to `w`, at the end of the words before it. This is what makes the executor's
   keyword search read a compiled statement the way it was written.
   */
  lemma {:induction false} FindWord(ws: seq<string>, w: string)
    requires |ws| >= 1 && Words(ws) && IsWord(w)
    ensures Find(Join(ws, " "), " " + w + " ") == WordPosition(ws, w)
    decreases |ws|
  {
    var p := " " + w + " ";
    if |ws| == 1 {
      FindAbsent(Join(ws, " "), p, 0);
    } else {
      FindWordStep(ws, w);
      WordPositionStep(ws, w);
      if !(|ws| >= 3 && ws[1] == w) {
        FindWord(ws[1..], w);
      }
    }
  }

  lemma FindAfterBlank(x: string, t: string, w: string)
    requires ' ' !in x
    ensures Find(x + (" " + t), " " + w + " ") ==
            if StartsWith(t, w + " ") then Some(|x|) else Shift(Find(t, " " + w + " "), |x| + 1)
  {
    var p := " " + w + " ";
    assert p[0] == ' ';
    FindSkip(x, " " + t, p);
    BlankPrefix(t, w);
    if StartsWith(t, w + " ") {
      FindFront(" " + t, p);
    } else {
      FindStep(' ', t, p);
    }
  }

  lemma FindWordStep(ws: seq<string>, w: string)
    requires |ws| >= 2 && Words(ws) && IsWord(w)
    ensures Find(Join(ws, " "), " " + w + " ") ==
            if |ws| >= 3 && ws[1] == w then Some(|ws[0]|)
            else Shift(Find(Join(ws[1..], " "), " " + w + " "), |ws[0]| + 1)
  {
    var t := Join(ws[1..], " ");
    assert Join(ws, " ") == ws[0] + (" " + t);
    FindAfterBlank(ws[0], t, w);
    WordAtFront(ws[1..], w);
  }

  // ---------------------------------------------------------------- decimal numerals

  predicate AllDigits(s: string) {
    forall i :: 0 <= i < |s| ==> IsDigit(s[i])
  }

  /** How many digits stand in front. */
  function DigitRun(s: string): (n: nat)
    ensures n <= |s| && AllDigits(s[..n]) && (n < |s| ==> !IsDigit(s[n]))
  {
    if s == "" || !IsDigit(s[0]) then 0
    else
      var n := DigitRun(s[1..]);
      assert s[..n + 1] == [s[0]] + s[1..][..n];
      n + 1
  }

  lemma {:induction false} DigitsEnd(d: string, t: string)
    requires AllDigits(d) && (t != "" ==> !IsDigit(t[0]))
    ensures DigitRun(d + t) == |d|
  {
    if d == "" {
      assert d + t == t;
    } else {
      assert (d + t)[0] == d[0] && (d + t)[1..] == d[1..] + t;
      DigitsEnd(d[1..], t);
    }
  }

  function Digit(d: nat): (c: char)
    requires d < 10
    ensures IsDigit(c)
  {
    (48 + d) as char
  }

  /** `std::to_string` and Python's `str` of a non-negative integer. */
  function Decimal(n: nat): (s: string)
    ensures s != "" && AllDigits(s)
  {
    if n < 10 then [Digit(n)] else Decimal(n / 10) + [Digit(n % 10)]
  }

  /** Python's `int` of a digit string. */
  function ReadDecimal(s: string): nat
    requires AllDigits(s)
  {
    if s == "" then 0
    else
      assert IsDigit(s[|s| - 1]);
      ReadDecimal(s[..|s| - 1]) * 10 + (s[|s| - 1] as int - '0' as int)
  }

  lemma {:induction false} ReadDecimalPrints(n: nat)
    ensures ReadDecimal(Decimal(n)) == n
  {
    if n >= 10 {
      ReadDecimalPrints(n / 10);
      assert Decimal(n)[..|Decimal(n)| - 1] == Decimal(n / 10);
    } else {
      assert Decimal(n)[..0] == "";
    }
  }
}
