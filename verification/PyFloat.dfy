/** Which ASCII texts Python's `float` reads; what number they stand for plays no part here. */
module PyFloat {
  import opened Text

  predicate IsSign(c: char) {
    c == '+' || c == '-'
  }

  function Unsigned(t: string): string {
    if t != "" && IsSign(t[0]) then t[1..] else t
  }

  /** Nothing, or an exponent with at least one digit. */
  predicate ExponentText(t: string) {
    t == "" || ((t[0] == 'e' || t[0] == 'E') && var d := Unsigned(t[1..]); d != "" && DigitRun(d) == |d|)
  }

  /** Digits with at most one point, at least one digit, and an exponent if any. */
  predicate NumberText(t: string) {
    var whole := DigitRun(t);
    var rest := t[whole..];
    if rest != "" && rest[0] == '.' then
      var fraction := DigitRun(rest[1..]);
      whole + fraction > 0 && ExponentText(rest[1..][fraction..])
    else whole > 0 && ExponentText(rest)
  }

  /** An underscore stands between two digits. */
  predicate GroupedDigits(t: string) {
    forall i :: 0 <= i < |t| && t[i] == '_' ==> 0 < i < |t| - 1 && IsDigit(t[i - 1]) && IsDigit(t[i + 1])
  }

  function Ungrouped(t: string): string {
    if t == "" then "" else (if t[0] == '_' then "" else [t[0]]) + Ungrouped(t[1..])
  }

  predicate FloatText(s: string) {
    var t := Trim(s);
    GroupedDigits(t) &&
    var u := Unsigned(Ungrouped(t));
    Lower(u) in ["inf", "infinity", "nan"] || NumberText(u)
  }

  lemma {:induction false} UngroupedPlain(t: string)
    requires '_' !in t
    ensures Ungrouped(t) == t
  {
    if t != "" {
      UngroupedPlain(t[1..]);
    }
  }

  lemma FractionParts(a: string, b: string)
    requires a != "" && b != "" && AllDigits(a) && AllDigits(b)
    ensures NumberText(a + ("." + b))
  {
    var t := a + ("." + b);
    assert t[|a|..] == "." + b && ("." + b)[0] == '.' && ("." + b)[1..] == b;
    assert b + "" == b;
    assert b[|b|..] == "";
  }

  lemma FractionIsBare(a: string, b: string)
    requires a != "" && b != "" && AllDigits(a) && AllDigits(b)
    ensures var t := a + ("." + b); t != "" && !IsSign(t[0]) && '_' !in t && Trim(t) == t
  {
    hide Trim;
    var t := a + ("." + b);
    forall i | 0 <= i < |t|
      ensures t[i] != '_' && !IsSpace(t[i])
    {
      assert t[i] == if i < |a| then a[i] else if i == |a| then '.' else b[i - |a| - 1];
    }
    assert t[0] == a[0];
    TrimmedStays(t);
  }

  lemma TrimmedStays(t: string)
    requires Trimmed(t)
    ensures Trim(t) == t
  {
  }

  /** A decimal fraction, as `str` prints most floats, is read. */
  lemma DecimalFractionIsRead(a: string, b: string)
    requires a != "" && b != "" && AllDigits(a) && AllDigits(b)
    ensures FloatText(a + ("." + b))
  {
    hide Trim, Lower, NumberText, Ungrouped;
    FractionParts(a, b);
    FractionIsBare(a, b);
    UngroupedPlain(a + ("." + b));
  }
}
