/** The registry's plan texts, word by word as the plan table has them. */
module RegistryPlans {
  import opened Text
  import opened Liq
  import opened Lowering
  import opened ReadPipeline
  import opened Bridge
  import opened Registry
  import opened RegistryStore

  /** Words in one pair of parentheses. */
  function Wrapped(ws: seq<string>): seq<string>
    requires ws != []
  {
    var n := |ws| - 1;
    if n == 0 then ["(" + ws[0] + ")"] else ["(" + ws[0]] + ws[1..n] + [ws[n] + ")"]
  }

  lemma JoinOne(w: string)
    ensures Join([w], " ") == w
  {
  }

  lemma WrappedText(ws: seq<string>)
    requires ws != []
    ensures Join(Wrapped(ws), " ") == "(" + Join(ws, " ") + ")"
  {
    hide Join;
    var n := |ws| - 1;
    if n == 0 {
      JoinOne("(" + ws[0] + ")");
      JoinOne(ws[0]);
      assert ws == [ws[0]];
    } else {
      var mid := ws[1..n];
      JoinOne(ws[0]);
      JoinOne(ws[n]);
      JoinOne("(" + ws[0]);
      JoinOne(ws[n] + ")");
      if mid == [] {
        assert ws == [ws[0]] + [ws[n]];
        JoinConcat([ws[0]], [ws[n]], " ");
        assert Wrapped(ws) == ["(" + ws[0]] + [ws[n] + ")"];
        JoinConcat(["(" + ws[0]], [ws[n] + ")"], " ");
        Assoc3("(", ws[0] + " ", ws[n]);
        Assoc3("(", ws[0], " ");
        Assoc3("(" + ws[0] + " ", ws[n], ")");
      } else {
        assert ws == [ws[0]] + mid + [ws[n]];
        JoinConcat([ws[0]] + mid, [ws[n]], " ");
        JoinConcat([ws[0]], mid, " ");
        JoinConcat(["(" + ws[0]] + mid, [ws[n] + ")"], " ");
        JoinConcat(["(" + ws[0]], mid, " ");
        var m := Join(mid, " ");
        assert "(" + (ws[0] + " " + m + " " + ws[n]) == "(" + ws[0] + " " + m + " " + ws[n];
        Assoc3("(" + ws[0] + " " + m + " ", ws[n], ")");
      }
    }
  }

  lemma SelectWords(t: string, columns: seq<string>, column: string, limit: Option<nat>)
    requires columns != []
    ensures SelectSql(t, columns, column, limit) ==
            Join(["SELECT"] + CommaWords(columns) + ["FROM", t, "WHERE", column, "=", "$1"] + LimitWords(limit), " ")
  {
    hide Join, CommaWords, FlatLimit, LimitWords;
    var list := CommaWords(columns);
    SomeWords(columns);
    var end := ["FROM", t, "WHERE", column, "=", "$1"];
    LimitClauseText(limit);
    JoinClause(["SELECT"] + list + end, LimitWords(limit), FlatLimit(limit));
    JoinConcat(["SELECT"] + list, end, " ");
    JoinConcat(["SELECT"], list, " ");
    JoinOne("SELECT");
    JoinCommaWords(columns);
    EndWords(t, column);
    var head := "SELECT" + " " + Join(columns, ", ");
    assert head == "SELECT " + Join(columns, ", ");
    var tail := "FROM " + t + " WHERE " + column + " = $1";
    assert head + " " + tail == head + " FROM " + t + " WHERE " + column + " = $1";
  }

  lemma SomeWords(columns: seq<string>)
    requires columns != []
    ensures CommaWords(columns) != []
  {
  }

  lemma EndWords(t: string, column: string)
    ensures Join(["FROM", t, "WHERE", column, "=", "$1"], " ") == "FROM " + t + " WHERE " + column + " = $1"
  {
    hide Join;
    JoinFour("FROM", t, "WHERE", column);
    JoinTwo("=", "$1");
    var a, b := ["FROM", t, "WHERE", column], ["=", "$1"];
    assert a + b == ["FROM", t, "WHERE", column, "=", "$1"];
    JoinConcat(a, b, " ");
    assert "FROM" + " " + (t + " " + ("WHERE" + " " + column)) == "FROM " + t + " WHERE " + column;
    assert "=" + " " + "$1" == "= $1";
    var x := "FROM " + t + " WHERE " + column;
    assert x + " " + "= $1" == x + " = $1";
  }

  lemma InsertWords(t: string, columns: seq<string>, slots: seq<string>)
    requires columns != [] && slots == ValueTexts(ColumnBindings(columns)) && slots != []
    requires CommaWords(columns) != [] && CommaWords(slots) != []
    ensures InsertSqlOf(t, columns) ==
            Join(["INSERT", "INTO", t] + Wrapped(CommaWords(columns)) + ["VALUES"] + Wrapped(CommaWords(slots)), " ")
  {
    hide Join, CommaWords, ValueTexts, ColumnBindings, Wrapped;
    WrappedText(CommaWords(columns));
    WrappedText(CommaWords(slots));
    WrappedSome(CommaWords(columns));
    WrappedSome(CommaWords(slots));
    JoinCommaWords(columns);
    JoinCommaWords(slots);
    var a, b, c := ["INSERT", "INTO", t], Wrapped(CommaWords(columns)), Wrapped(CommaWords(slots));
    JoinConcat(a + b + ["VALUES"], c, " ");
    JoinConcat(a + b, ["VALUES"], " ");
    JoinConcat(a, b, " ");
    JoinOne("VALUES");
    InsertHeadWords(t);
    var x, y := Join(columns, ", "), Join(slots, ", ");
  }

  lemma WrappedSome(ws: seq<string>)
    requires ws != []
    ensures Wrapped(ws) != []
  {
  }

  lemma InsertHeadWords(t: string)
    ensures Join(["INSERT", "INTO", t], " ") == "INSERT INTO " + t
  {
    hide Join;
    JoinTwo("INSERT", "INTO");
    JoinOne(t);
    assert ["INSERT", "INTO"] + [t] == ["INSERT", "INTO", t];
    JoinConcat(["INSERT", "INTO"], [t], " ");
    assert "INSERT" + " " + "INTO" == "INSERT INTO" && "INSERT INTO" + " " == "INSERT INTO ";
  }

  lemma SlotTexts(columns: seq<string>)
    ensures |ValueTexts(ColumnBindings(columns))| == |columns|
    ensures forall i :: 0 <= i < |columns| ==> ValueTexts(ColumnBindings(columns))[i] == "$" + Decimal(i + 1)
  {
    hide Decimal;
    var bs := ColumnBindings(columns);
    forall i | 0 <= i < |columns|
      ensures ParamCount(bs[..i]) == i
    {
      assert bs[..i] == ColumnBindings(columns[..i]);
      BoundRowWith(columns[..i], columns[..i]);
    }
  }

  lemma SlotDigits()
    ensures "$" + Decimal(1) == "$1" && "$" + Decimal(2) == "$2" && "$" + Decimal(3) == "$3" && "$" + Decimal(4) == "$4"
    ensures "$" + Decimal(5) == "$5" && "$" + Decimal(6) == "$6" && "$" + Decimal(7) == "$7"
  {
  }

  /** A list of words is the list of names with their commas when it is so name by name. */
  lemma {:induction false} CommaWordsAre(cs: seq<string>, ws: seq<string>)
    requires |ws| == |cs| && forall i :: 0 <= i < |cs| ==> ws[i] == if i < |cs| - 1 then cs[i] + "," else cs[i]
    ensures CommaWords(cs) == ws
  {
    if |cs| > 1 {
      CommaWordsAre(cs[1..], ws[1..]);
      assert ws == [ws[0]] + ws[1..];
    } else {
      assert cs == ws;
    }
  }

  lemma WrappedWords(ws: seq<string>, vs: seq<string>)
    requires |ws| == |vs| > 1
    requires vs[0] == "(" + ws[0] && vs[|vs| - 1] == ws[|ws| - 1] + ")"
    requires forall i :: 0 < i < |ws| - 1 ==> vs[i] == ws[i]
    ensures Wrapped(ws) == vs
  {
  }

  lemma OneDigit()
    ensures Decimal(1) == "1"
  {
  }

  lemma PublisherByNameText()
    ensures PublisherByName().sql ==
            Join(["SELECT", "id,", "name", "FROM", "publishers", "WHERE", "name", "=", "$1", "LIMIT", "1"], " ")
  {
    hide Join, CommaWords, SelectSql, Decimal;
    var list := ["id,", "name"];
    CommaWordsAre(PUBLISHER_VIEW, list);
    SelectWords("publishers", PUBLISHER_VIEW, "name", Some(1));
    OneDigit();
    assert ["SELECT"] + list + ["FROM", "publishers", "WHERE", "name", "=", "$1"] + ["LIMIT", "1"] ==
           ["SELECT", "id,", "name", "FROM", "publishers", "WHERE", "name", "=", "$1", "LIMIT", "1"];
  }

  lemma PackageByNameText()
    ensures PackageByName().sql ==
            Join(["SELECT", "id,", "name,", "description,", "repository_url", "FROM", "packages", "WHERE",
                  "name", "=", "$1", "LIMIT", "1"], " ")
  {
    hide Join, CommaWords, SelectSql, Decimal;
    var list := ["id,", "name,", "description,", "repository_url"];
    CommaWordsAre(PACKAGE_VIEW, list);
    SelectWords("packages", PACKAGE_VIEW, "name", Some(1));
    OneDigit();
    assert ["SELECT"] + list + ["FROM", "packages", "WHERE", "name", "=", "$1"] + ["LIMIT", "1"] ==
           ["SELECT", "id,", "name,", "description,", "repository_url", "FROM", "packages", "WHERE", "name",
            "=", "$1", "LIMIT", "1"];
  }

  lemma VersionsForPackageText()
    ensures VersionsForPackage().sql ==
            Join(["SELECT", "id,", "version,", "tree_digest,", "proof_digest,", "coverage_pct,",
                  "published_at,", "yanked", "FROM", "package_versions", "WHERE", "package_id", "=", "$1"], " ")
  {
    hide Join, CommaWords, SelectSql, Decimal;
    var list := ["id,", "version,", "tree_digest,", "proof_digest,", "coverage_pct,", "published_at,", "yanked"];
    CommaWordsAre(VERSION_VIEW, list);
    SelectWords("package_versions", VERSION_VIEW, "package_id", None);
    OneDigit();
    assert ["SELECT"] + list + ["FROM", "package_versions", "WHERE", "package_id", "=", "$1"] + [] ==
           ["SELECT", "id,", "version,", "tree_digest,", "proof_digest,", "coverage_pct,", "published_at,",
            "yanked", "FROM", "package_versions", "WHERE", "package_id", "=", "$1"];
  }

  lemma PublisherColumnWords()
    ensures CommaWords(PUBLISHER_COLUMNS) != []
    ensures Wrapped(CommaWords(PUBLISHER_COLUMNS)) ==
            ["(id,", "name,", "public_key)"]
  {
    hide CommaWords, Wrapped;
    var list := ["id,", "name,", "public_key"];
    CommaWordsAre(PUBLISHER_COLUMNS, list);
    WrappedWords(list, ["(id,", "name,", "public_key)"]);
  }

  lemma PublisherSlotWords()
    ensures var slots := ValueTexts(ColumnBindings(PUBLISHER_COLUMNS));
            slots != [] && CommaWords(slots) != [] && Wrapped(CommaWords(slots)) == ["($1,", "$2,", "$3)"]
  {
    hide CommaWords, Wrapped, ValueTexts, ColumnBindings, Decimal;
    var slots := ["$1", "$2", "$3"];
    SlotTexts(PUBLISHER_COLUMNS);
    SlotDigits();
    assert ValueTexts(ColumnBindings(PUBLISHER_COLUMNS)) == slots;
    CommaWordsAre(slots, ["$1,", "$2,", "$3"]);
    WrappedWords(["$1,", "$2,", "$3"], ["($1,", "$2,", "$3)"]);
  }

  lemma InsertPublisherText()
    ensures InsertPublisher().sql ==
            Join(["INSERT", "INTO", "publishers", "(id,", "name,", "public_key)", "VALUES", "($1,", "$2,", "$3)"], " ")
  {
    hide Join, CommaWords, InsertSqlOf, ValueTexts, Wrapped, ColumnBindings;
    PublisherColumnWords();
    PublisherSlotWords();
    InsertWords("publishers", PUBLISHER_COLUMNS, ValueTexts(ColumnBindings(PUBLISHER_COLUMNS)));
    var columns := ["(id,", "name,", "public_key)"];
    assert ["INSERT", "INTO", "publishers"] + columns + ["VALUES"] + ["($1,", "$2,", "$3)"] ==
           ["INSERT", "INTO", "publishers", "(id,", "name,", "public_key)", "VALUES", "($1,", "$2,", "$3)"];
  }

  lemma PackageColumnWords()
    ensures CommaWords(PACKAGE_COLUMNS) != []
    ensures Wrapped(CommaWords(PACKAGE_COLUMNS)) ==
            ["(id,", "name,", "description,", "repository_url)"]
  {
    hide CommaWords, Wrapped;
    var list := ["id,", "name,", "description,", "repository_url"];
    CommaWordsAre(PACKAGE_COLUMNS, list);
    WrappedWords(list, ["(id,", "name,", "description,", "repository_url)"]);
  }

  lemma PackageSlotWords()
    ensures var slots := ValueTexts(ColumnBindings(PACKAGE_COLUMNS));
            slots != [] && CommaWords(slots) != [] && Wrapped(CommaWords(slots)) == ["($1,", "$2,", "$3,", "$4)"]
  {
    hide CommaWords, Wrapped, ValueTexts, ColumnBindings, Decimal;
    var slots := ["$1", "$2", "$3", "$4"];
    SlotTexts(PACKAGE_COLUMNS);
    SlotDigits();
    assert ValueTexts(ColumnBindings(PACKAGE_COLUMNS)) == slots;
    CommaWordsAre(slots, ["$1,", "$2,", "$3,", "$4"]);
    WrappedWords(["$1,", "$2,", "$3,", "$4"], ["($1,", "$2,", "$3,", "$4)"]);
  }

  lemma InsertPackageText()
    ensures InsertPackage().sql ==
            Join(["INSERT", "INTO", "packages", "(id,", "name,", "description,", "repository_url)", "VALUES",
                  "($1,", "$2,", "$3,", "$4)"], " ")
  {
    hide Join, CommaWords, InsertSqlOf, ValueTexts, Wrapped, ColumnBindings;
    PackageColumnWords();
    PackageSlotWords();
    InsertWords("packages", PACKAGE_COLUMNS, ValueTexts(ColumnBindings(PACKAGE_COLUMNS)));
    var columns := ["(id,", "name,", "description,", "repository_url)"];
    assert ["INSERT", "INTO", "packages"] + columns + ["VALUES"] + ["($1,", "$2,", "$3,", "$4)"] ==
           ["INSERT", "INTO", "packages", "(id,", "name,", "description,", "repository_url)", "VALUES", "($1,",
            "$2,", "$3,", "$4)"];
  }

  lemma VersionColumnWords()
    ensures CommaWords(VERSION_COLUMNS) != []
    ensures Wrapped(CommaWords(VERSION_COLUMNS)) ==
            ["(id,", "package_id,", "version,", "tree_digest,", "proof_digest,", "coverage_pct,",
             "publisher_id)"]
  {
    hide CommaWords, Wrapped;
    var list := ["id,", "package_id,", "version,", "tree_digest,", "proof_digest,", "coverage_pct,",
                 "publisher_id"];
    CommaWordsAre(VERSION_COLUMNS, list);
    WrappedWords(list, ["(id,", "package_id,", "version,", "tree_digest,", "proof_digest,", "coverage_pct,",
                        "publisher_id)"]);
  }

  lemma VersionSlotWords()
    ensures var slots := ValueTexts(ColumnBindings(VERSION_COLUMNS));
            slots != [] && CommaWords(slots) != [] && Wrapped(CommaWords(slots)) == ["($1,", "$2,", "$3,", "$4,", "$5,", "$6,", "$7)"]
  {
    hide CommaWords, Wrapped, ValueTexts, ColumnBindings, Decimal;
    var slots := ["$1", "$2", "$3", "$4", "$5", "$6", "$7"];
    SlotTexts(VERSION_COLUMNS);
    SlotDigits();
    assert ValueTexts(ColumnBindings(VERSION_COLUMNS)) == slots;
    CommaWordsAre(slots, ["$1,", "$2,", "$3,", "$4,", "$5,", "$6,", "$7"]);
    WrappedWords(["$1,", "$2,", "$3,", "$4,", "$5,", "$6,", "$7"], ["($1,", "$2,", "$3,", "$4,", "$5,", "$6,", "$7)"]);
  }

  lemma InsertPackageVersionText()
    ensures InsertPackageVersion().sql ==
            Join(["INSERT", "INTO", "package_versions", "(id,", "package_id,", "version,", "tree_digest,",
                  "proof_digest,", "coverage_pct,", "publisher_id)", "VALUES", "($1,", "$2,", "$3,", "$4,",
                  "$5,", "$6,", "$7)"], " ")
  {
    hide Join, CommaWords, InsertSqlOf, ValueTexts, Wrapped, ColumnBindings;
    VersionColumnWords();
    VersionSlotWords();
    InsertWords("package_versions", VERSION_COLUMNS, ValueTexts(ColumnBindings(VERSION_COLUMNS)));
    var columns := ["(id,", "package_id,", "version,", "tree_digest,", "proof_digest,", "coverage_pct,",
                    "publisher_id)"];
    assert ["INSERT", "INTO", "package_versions"] + columns + ["VALUES"] + ["($1,", "$2,", "$3,", "$4,", "$5,", "$6,", "$7)"] ==
           ["INSERT", "INTO", "package_versions", "(id,", "package_id,", "version,", "tree_digest,",
            "proof_digest,", "coverage_pct,", "publisher_id)", "VALUES", "($1,", "$2,", "$3,", "$4,", "$5,",
            "$6,", "$7)"];
  }
}
