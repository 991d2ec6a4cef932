/** The catalog allowlist: which tables and columns a liq statement may name. */
module Catalog {
  import opened Text

  datatype Result<+T> = Ok(value: T) | CatalogError(subject: string) | CompileError(subject: string)
  {
    predicate IsFailure() {
      !Ok?
    }

    function PropagateFailure<U>(): Result<U>
      requires IsFailure()
    {
      if CatalogError? then CatalogError(subject) else CompileError(subject)
    }

    function Extract(): T
      requires Ok?
    {
      value
    }
  }

  /** What the allowlist says of a table: any column (`None` in the source), or only these. */
  datatype Allowed = AnyColumn | Only(columns: set<string>)

  type Allowlist = map<string, Allowed>

  /** `raw.split(".")` into schema and table; `public` when there is no dot. */
  function SplitIdent(raw: string): Result<(string, string)> {
    var dot := Find(raw, ".");
    if dot.None? then Ok(("public", raw))
    else
      var rest := raw[dot.value + 1..];
      if '.' in rest then CatalogError(raw) else Ok((raw[..dot.value], rest))
  }

  function ResolveTable(cat: Allowlist, raw: string): Result<(string, string)> {
    var ident :- SplitIdent(raw);
    if ident.0 + "." + ident.1 in cat then Ok(ident) else CatalogError(raw)
  }

  function ResolveColumn(cat: Allowlist, raw: string, column: string): Result<(string, string, string)> {
    var ident :- ResolveTable(cat, raw);
    var allowed := cat[ident.0 + "." + ident.1];
    if allowed.Only? && column !in allowed.columns then CatalogError(column)
    else Ok((ident.0, ident.1, column))
  }

  predicate IsNameChar(c: char) {
    'a' <= c <= 'z' || IsDigit(c) || c == '_'
  }

  /** Words the executor's scanners look for between blanks. */
  const RESERVED: set<string> := {"from", "where", "limit"}

  /** A lower-case identifier that no keyword scan mistakes for a keyword. */
  predicate CleanName(s: string) {
    && s != ""
    && (forall i :: 0 <= i < |s| ==> IsNameChar(s[i]))
    && !IsDigit(s[0])
    && s !in RESERVED
  }

  predicate CleanNames(names: set<string>) {
    forall c :: c in names ==> CleanName(c)
  }

  /** Every table is `public.` and a clean name, and lists its columns, all clean. */
  predicate CleanAllowlist(cat: Allowlist) {
    forall key :: key in cat ==>
      && StartsWith(key, "public.") && CleanName(key[7..])
      && cat[key].Only? && CleanNames(cat[key].columns)
  }

  lemma DottedSplit(a: string, b: string, c: string, d: string)
    requires '.' !in a && '.' !in c && a + "." + b == c + "." + d
    ensures a == c && b == d
  {
    var t, u := a + "." + b, c + "." + d;
    assert t[|a|] == '.' && u[|c|] == '.';
    assert |a| == |c|;
    assert t[..|a|] == a && u[..|c|] == c && t[|a| + 1..] == b && u[|c| + 1..] == d;
  }

  lemma SplitIdentHasNoDot(raw: string)
    requires SplitIdent(raw).Ok?
    ensures '.' !in SplitIdent(raw).value.0
  {
    var dot := Find(raw, ".");
    if dot.Some? {
      forall i | 0 <= i < dot.value
        ensures raw[i] != '.'
      {
        assert !At(raw, ".", i);
        assert raw[i..i + 1] == [raw[i]];
      }
    }
  }

  /** Every table that resolves is in schema `public` under a clean name. */
  lemma ResolvedTableIsClean(cat: Allowlist, raw: string)
    requires CleanAllowlist(cat) && ResolveTable(cat, raw).Ok?
    ensures ResolveTable(cat, raw).value.0 == "public" && CleanName(ResolveTable(cat, raw).value.1)
  {
    var (schema, name) := ResolveTable(cat, raw).value;
    var key := schema + "." + name;
    assert key == key[..7] + key[7..] == "public" + "." + key[7..];
    SplitIdentHasNoDot(raw);
    DottedSplit(schema, name, "public", key[7..]);
  }

  lemma ResolvedColumnIsClean(cat: Allowlist, raw: string, column: string)
    requires CleanAllowlist(cat) && ResolveColumn(cat, raw, column).Ok?
    ensures ResolveTable(cat, raw).Ok? && CleanName(column)
    ensures ResolveColumn(cat, raw, column).value
            == (ResolveTable(cat, raw).value.0, ResolveTable(cat, raw).value.1, column)
  {
  }
}
