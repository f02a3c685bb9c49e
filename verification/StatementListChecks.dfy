/**
 The import-time checks on the shipped list: every entry's captures agree with its target rule
 and capture objects in the form the extraction expects, and the families are distinct.
 */
module StatementListChecks {
  import opened Wrappers
  import opened ReadonlyStatements
  import opened StatementTargets
  import opened StatementList

  /** The sequence declares `names`, in forms the extraction understands. */
  predicate Declares(es: seq<Element>, names: Declared) {
    CaptureNamesAll(es) == names && AllKindsFit(es)
  }

  predicate DeclaresOne(e: Element, names: Declared) {
    CaptureNames(e) == names && KindsFit(e)
  }

  lemma Of1(a: Element, names: Declared)
    requires DeclaresOne(a, names)
    ensures Declares([a], names)
  {
  }

  lemma Of2(a: Element, x: Declared, b: Element, y: Declared)
    requires DeclaresOne(a, x) && DeclaresOne(b, y)
    ensures Declares([a, b], x + y)
  {
    Of1(b, y);
    assert [a, b][1..] == [b];
  }

  lemma Of3(a: Element, x: Declared, b: Element, y: Declared, c: Element, z: Declared)
    requires DeclaresOne(a, x) && DeclaresOne(b, y) && DeclaresOne(c, z)
    ensures Declares([a, b, c], x + (y + z))
  {
    Of2(b, y, c, z);
    assert [a, b, c][1..] == [b, c];
  }

  lemma Of4(a: Element, x: Declared, b: Element, y: Declared, c: Element, z: Declared, d: Element, w: Declared)
    requires DeclaresOne(a, x) && DeclaresOne(b, y) && DeclaresOne(c, z) && DeclaresOne(d, w)
    ensures Declares([a, b, c, d], x + (y + (z + w)))
  {
    Of3(b, y, c, z, d, w);
    assert [a, b, c, d][1..] == [b, c, d];
  }

  /** A choice between two sequences. */
  lemma Either(a: seq<Element>, x: Declared, b: seq<Element>, y: Declared)
    requires Declares(a, x) && Declares(b, y)
    ensures DeclaresOne(OneOf([Alternative(a), Alternative(b)]), Weaken(x) + Weaken(y))
  {
    var alternatives := [Alternative(a), Alternative(b)];
    assert alternatives[1..] == [Alternative(b)] && alternatives[1..][1..] == [];
    assert CaptureNamesAny(alternatives[1..]) == Weaken(y) + [];
    assert AnyKindsFit(alternatives[1..]);
  }

  /** A choice between three sequences. */
  lemma OneOfThree(a: seq<Element>, x: Declared, b: seq<Element>, y: Declared, c: seq<Element>, z: Declared)
    requires Declares(a, x) && Declares(b, y) && Declares(c, z)
    ensures DeclaresOne(OneOf([Alternative(a), Alternative(b), Alternative(c)]), Weaken(x) + (Weaken(y) + Weaken(z)))
  {
    var alternatives := [Alternative(a), Alternative(b), Alternative(c)];
    Either(b, y, c, z);
    assert alternatives[1..] == [Alternative(b), Alternative(c)];
  }

  lemma OptFromDbDeclares()
    ensures DeclaresOne(OptFromDb(), [("database", false)])
  {
    Of2(Kw(["FROM"]), [], Name("database", 1, 1), [("database", true)]);
  }

  lemma OptDbDeclares()
    ensures DeclaresOne(OptDb(), [("database", false)])
  {
    Of1(Kw(["FROM"]), []);
    Of1(Kw(["IN"]), []);
    Either([Kw(["FROM"])], [], [Kw(["IN"])], []);
    Of2(FromOrIn(), [], Name("database", 1, 1), [("database", true)]);
  }

  lemma LiteralOrIntDeclares()
    ensures DeclaresOne(LiteralOrInt(), [])
  {
  }

  lemma WhereDeclares(columns: set<string>)
    ensures DeclaresOne(WhereRegistered(columns), [])
  {
    LiteralOrIntDeclares();
    var many := WhereRegistered(columns).elements[4];
    Of4(Column(columns), [], Sym("="), [], LiteralOrInt(), [], many, []);
    var all := WhereRegistered(columns).elements;
    assert all[1..] == [Column(columns), Sym("="), LiteralOrInt(), many];
    assert CaptureNamesAll(all) == [] && AllKindsFit(all);
  }

  lemma WordsDeclare(words: seq<string>)
    ensures DeclaresOne(Kw(words), []) && Declares([Kw(words)], [])
  {
  }

  lemma EitherWords(a: seq<string>, b: seq<string>)
    ensures DeclaresOne(OneOf([Alternative([Kw(a)]), Alternative([Kw(b)])]), [])
  {
    WordsDeclare(a);
    WordsDeclare(b);
    Either([Kw(a)], [], [Kw(b)], []);
  }

  lemma ThreeWords(a: seq<string>, b: seq<string>, c: seq<string>)
    ensures DeclaresOne(OneOf([Alternative([Kw(a)]), Alternative([Kw(b)]), Alternative([Kw(c)])]), [])
  {
    WordsDeclare(a);
    WordsDeclare(b);
    WordsDeclare(c);
    OneOfThree([Kw(a)], [], [Kw(b)], [], [Kw(c)], []);
  }

  lemma ViewFilterDeclares()
    ensures DeclaresOne(Opt([MaterializedViewFilter()]), [("relation_name", false)])
  {
    var name: Declared := [("relation_name", true)];
    LiteralFilterDeclares(["LIKE"]);
    NamedFilterDeclares(["WHERE", "NAME"]);
    LiteralFilterDeclares(["WHERE", "NAME", "LIKE"]);
    OneOfThree([Kw(["LIKE"]), Str(None)], [], [Kw(["WHERE", "NAME"]), Sym("="), Str(Some("relation_name"))], name,
               [Kw(["WHERE", "NAME", "LIKE"]), Str(None)], []);
    assert Weaken(name) == [("relation_name", false)];
    Of1(MaterializedViewFilter(), [("relation_name", false)]);
  }

  lemma LiteralFilterDeclares(words: seq<string>)
    ensures Declares([Kw(words), Str(None)], [])
  {
    Of2(Kw(words), [], Str(None), []);
  }

  lemma NamedFilterDeclares(words: seq<string>)
    ensures Declares([Kw(words), Sym("="), Str(Some("relation_name"))], [("relation_name", true)])
  {
    Of3(Kw(words), [], Sym("="), [], Str(Some("relation_name")), [("relation_name", true)]);
  }

  lemma DataFilterDeclares()
    ensures DeclaresOne(Opt([Kw(["FROM"]), DatabaseOrRelation()]), [("database", false), ("relation", false)])
  {
    Of1(Name("database", 1, 1), [("database", true)]);
    Of1(Name("relation", 2, 2), [("relation", true)]);
    Either([Name("database", 1, 1)], [("database", true)], [Name("relation", 2, 2)], [("relation", true)]);
    Of2(Kw(["FROM"]), [], DatabaseOrRelation(), [("database", false), ("relation", false)]);
  }

  lemma TableFilterDeclares()
    ensures DeclaresOne(Opt([Kw(["WHERE", "TABLENAME"]), Sym("="), Str(Some("relation_name"))]),
                        [("relation_name", false)])
  {
    NamedFilterDeclares(["WHERE", "TABLENAME"]);
  }

  // ---- declarations that satisfy each rule ----

  predicate Checked(s: ReadonlyStatement) { TargetRuleHolds(s) && AllKindsFit(s.pattern) && OneSource(s) }

  lemma NoTargetChecked(s: ReadonlyStatement, names: Declared)
    requires s.target == NoTarget && Declares(s.pattern, names)
    requires names == [] || names == [("database", false)] || names == [("job", true)]
    ensures Checked(s)
  {
  }

  lemma OneRelationChecked(s: ReadonlyStatement)
    requires s.target == OneRelation && Declares(s.pattern, [("relation", true)])
    ensures Checked(s)
  {
  }

  lemma OptionalRelationChecked(s: ReadonlyStatement, captured: string)
    requires s.target == OptionalRelation && (captured == "relation" || captured == "relation_name")
    requires Declares(s.pattern, [("database", false), (captured, false)])
    ensures Checked(s)
  {
    var names: Declared := [("database", false), (captured, false)];
    var m := NamesMap(names);
    assert names[1] == (captured, false) && captured in m;
    assert forall n :: n in m ==> n == "database" || n == captured;
    assert captured in RelationCaptures(m);
  }

  lemma InnerQueryChecked(s: ReadonlyStatement)
    requires s.target == InnerQuery && Declares(s.pattern, [("inner_query", true)])
    ensures Checked(s)
  {
  }

  // ---- the entries ----

  lemma KeywordsChecked(s: ReadonlyStatement, words: seq<string>)
    requires s.target == NoTarget && s.pattern == [Kw(words)]
    ensures Checked(s)
  {
    Of1(Kw(words), []);
    NoTargetChecked(s, []);
  }

  lemma KeywordsAndChecked(s: ReadonlyStatement, words: seq<string>, e: Element, names: Declared)
    requires s.target == NoTarget && s.pattern == [Kw(words), e] && DeclaresOne(e, names)
    requires names == [] || names == [("database", false)] || names == [("job", true)]
    ensures Checked(s)
  {
    Of2(Kw(words), [], e, names);
    NoTargetChecked(s, names);
  }

  lemma FromDbChecked(s: ReadonlyStatement, words: seq<string>)
    requires s.target == NoTarget && s.pattern == [Kw(words), OptFromDb()]
    ensures Checked(s)
  {
    OptFromDbDeclares();
    KeywordsAndChecked(s, words, OptFromDb(), [("database", false)]);
  }

  lemma WhereChecked(s: ReadonlyStatement, words: seq<string>, columns: set<string>)
    requires s.target == NoTarget && s.pattern == [Kw(words), WhereRegistered(columns)]
    ensures Checked(s)
  {
    WhereDeclares(columns);
    KeywordsAndChecked(s, words, WhereRegistered(columns), []);
  }

  lemma KeywordsRelationChecked(s: ReadonlyStatement, words: seq<string>)
    requires s.target == OneRelation && s.pattern == [Kw(words), Relation()]
    ensures Checked(s)
  {
    Of2(Kw(words), [], Relation(), [("relation", true)]);
    OneRelationChecked(s);
  }

  lemma MiddleRelationChecked(s: ReadonlyStatement, a: Element, b: Element, words: seq<string>)
    requires s.target == OneRelation && s.pattern == [a, b, Kw(words)]
    requires DeclaresOne(a, []) && b == Relation()
    ensures Checked(s)
  {
    Of3(a, [], b, [("relation", true)], Kw(words), []);
    assert [] + ([("relation", true)] + []) == [("relation", true)];
    OneRelationChecked(s);
  }

  lemma LaterRelationChecked(s: ReadonlyStatement, words: seq<string>, b: Element, more: seq<string>, d: Element)
    requires s.target == OneRelation && s.pattern == [Kw(words), b, Kw(more), d]
    requires DeclaresOne(b, []) && d == Relation()
    ensures Checked(s)
  {
    Of4(Kw(words), [], b, [], Kw(more), [], d, [("relation", true)]);
    assert [] + ([] + ([] + [("relation", true)])) == [("relation", true)];
    OneRelationChecked(s);
  }

  lemma OptionChecked(s: ReadonlyStatement, words: seq<string>, b: Element, c: Element)
    requires s.target == OptionalRelation && s.pattern == [Kw(words), b, c]
    requires DeclaresOne(b, [("database", false)]) && DeclaresOne(c, [("relation_name", false)])
    ensures Checked(s)
  {
    Of3(Kw(words), [], b, [("database", false)], c, [("relation_name", false)]);
    assert [] + ([("database", false)] + [("relation_name", false)]) == [("database", false), ("relation_name", false)];
    OptionalRelationChecked(s, "relation_name");
  }

  lemma ChoiceChecked(s: ReadonlyStatement, words: seq<string>, b: Element)
    requires s.target == OptionalRelation && s.pattern == [Kw(words), b]
    requires DeclaresOne(b, [("database", false), ("relation", false)])
    ensures Checked(s)
  {
    Of2(Kw(words), [], b, [("database", false), ("relation", false)]);
    OptionalRelationChecked(s, "relation");
  }

  lemma TwoOptionsChecked(s: ReadonlyStatement, words: seq<string>, b: Element, c: Element, d: Element)
    requires s.target == OptionalRelation && s.pattern == [Kw(words), b, c, d]
    requires DeclaresOne(b, []) && DeclaresOne(c, [("database", false)])
    requires DeclaresOne(d, [("relation_name", false)])
    ensures Checked(s)
  {
    Of4(Kw(words), [], b, [], c, [("database", false)], d, [("relation_name", false)]);
    assert [] + ([] + ([("database", false)] + [("relation_name", false)]))
        == [("database", false), ("relation_name", false)];
    OptionalRelationChecked(s, "relation_name");
  }

  lemma ExplainedChecked(s: ReadonlyStatement, words: seq<string>, b: Element, c: Element)
    requires s.target == InnerQuery && s.pattern == [Kw(words), b, c]
    requires DeclaresOne(b, []) && DeclaresOne(c, [("inner_query", true)])
    ensures Checked(s)
  {
    Of3(Kw(words), [], b, [], c, [("inner_query", true)]);
    assert [] + ([] + [("inner_query", true)]) == [("inner_query", true)];
    InnerQueryChecked(s);
  }

  /** A first word with four elements behind it, of which at most `d` captures. */
  lemma FiveChecked(s: ReadonlyStatement, words: seq<string>, b: Element, c: Element, d: Element, e: Element,
                    x: Declared, z: Declared)
    requires s.target == NoTarget && s.pattern == [Kw(words), b, c, d, e] && x + z == [("database", false)]
    requires DeclaresOne(b, x) && DeclaresOne(c, []) && DeclaresOne(d, z) && DeclaresOne(e, [])
    ensures Checked(s)
  {
    Of4(b, x, c, [], d, z, e, []);
    assert x + ([] + (z + [])) == x + z;
    assert s.pattern[1..] == [b, c, d, e] && [] + (x + z) == x + z;
    NoTargetChecked(s, [("database", false)]);
  }

  lemma FullAndLikeDeclare()
    ensures DeclaresOne(Opt([Kw(["FULL"])]), []) && DeclaresOne(Opt([Kw(["LIKE"]), Str(None)]), [])
  {
    Of1(Kw(["FULL"]), []);
    Of2(Kw(["LIKE"]), [], Str(None), []);
  }

  lemma ViewsChecked(s: ReadonlyStatement)
    requires s == ShowMaterializedViews()
    ensures Checked(s)
  {
    OptDbDeclares();
    ViewFilterDeclares();
    OptionChecked(s, ["SHOW", "MATERIALIZED", "VIEWS"], OptDb(), Opt([MaterializedViewFilter()]));
  }

  lemma DataChecked(s: ReadonlyStatement)
    requires s == ShowData()
    ensures Checked(s)
  {
    DataFilterDeclares();
    ChoiceChecked(s, ["SHOW", "DATA"], Opt([Kw(["FROM"]), DatabaseOrRelation()]));
  }

  lemma AlterChecked(s: ReadonlyStatement)
    requires s == ShowAlterTable()
    ensures Checked(s)
  {
    ThreeWords(["COLUMN"], ["ROLLUP"], ["MATERIALIZED", "VIEW"]);
    OptDbDeclares();
    TableFilterDeclares();
    TwoOptionsChecked(s, ["SHOW", "ALTER", "TABLE"], AlterKind(), OptDb(),
                      Opt([Kw(["WHERE", "TABLENAME"]), Sym("="), Str(Some("relation_name"))]));
  }

  lemma Checks0(i: nat)
    requires 0 <= i < 4
    ensures i < |READONLY_STATEMENTS| && Checked(READONLY_STATEMENTS[i])
  {
    if i == 0 {
      KeywordsRelationChecked(READONLY_STATEMENTS[i], ["SHOW", "CREATE", "MATERIALIZED", "VIEW"]);
    } else if i == 1 {
      ViewsChecked(READONLY_STATEMENTS[i]);
    } else if i == 2 {
      WordsDeclare(["TEMPORARY"]);
      LaterRelationChecked(READONLY_STATEMENTS[i], ["SHOW"], Opt([Kw(["TEMPORARY"])]), ["PARTITIONS", "FROM"],
                           Relation());
    } else {
      KeywordsRelationChecked(READONLY_STATEMENTS[i], ["SHOW", "TABLET", "FROM"]);
    }
  }

  lemma Checks4(i: nat)
    requires 4 <= i < 8
    ensures i < |READONLY_STATEMENTS| && Checked(READONLY_STATEMENTS[i])
  {
    if i == 4 {
      KeywordsAndChecked(READONLY_STATEMENTS[i], ["SHOW", "TABLET"], Int, []);
    } else if i == 5 {
      DataChecked(READONLY_STATEMENTS[i]);
    } else if i == 6 {
      FromDbChecked(READONLY_STATEMENTS[i], ["SHOW", "LOAD"]);
    } else {
      FromDbChecked(READONLY_STATEMENTS[i], ["SHOW", "ROUTINE", "LOAD"]);
    }
  }

  lemma Checks8(i: nat)
    requires 8 <= i < 12
    ensures i < |READONLY_STATEMENTS| && Checked(READONLY_STATEMENTS[i])
  {
    if i == 8 {
      OptDbDeclares();
      FullAndLikeDeclare();
      WordsDeclare(["FUNCTIONS"]);
      FiveChecked(READONLY_STATEMENTS[i], ["SHOW"], Opt([Kw(["FULL"])]), Kw(["FUNCTIONS"]), OptDb(),
                  Opt([Kw(["LIKE"]), Str(None)]), [], [("database", false)]);
    } else if i == 9 {
      KeywordsChecked(READONLY_STATEMENTS[i], ["SHOW", "CATALOGS"]);
    } else if i == 10 {
      KeywordsChecked(READONLY_STATEMENTS[i], ["SHOW", "FRONTENDS"]);
    } else {
      KeywordsChecked(READONLY_STATEMENTS[i], ["SHOW", "BACKENDS"]);
    }
  }

  lemma Checks12(i: nat)
    requires 12 <= i < 16
    ensures i < |READONLY_STATEMENTS| && Checked(READONLY_STATEMENTS[i])
  {
    if i == 12 {
      KeywordsChecked(READONLY_STATEMENTS[i], ["SHOW", "RESOURCE", "GROUPS"]);
    } else if i == 13 {
      KeywordsAndChecked(READONLY_STATEMENTS[i], ["SHOW", "PROC"], Str(None), []);
    } else if i == 14 {
      Of2(Kw(["LIMIT"]), [], Int, []);
      KeywordsAndChecked(READONLY_STATEMENTS[i], ["SHOW", "PROFILELIST"], Opt([Kw(["LIMIT"]), Int]), []);
    } else {
      AlterChecked(READONLY_STATEMENTS[i]);
    }
  }

  lemma Checks16(i: nat)
    requires 16 <= i < 18
    ensures i < |READONLY_STATEMENTS| && Checked(READONLY_STATEMENTS[i])
  {
    if i == 16 {
      KeywordsRelationChecked(READONLY_STATEMENTS[i], ["ADMIN", "SHOW", "REPLICA", "STATUS", "FROM"]);
    } else {
      KeywordsRelationChecked(READONLY_STATEMENTS[i], ["ADMIN", "SHOW", "REPLICA", "DISTRIBUTION", "FROM"]);
    }
  }

  lemma Checks18(i: nat)
    requires 18 <= i < 20
    ensures i < |READONLY_STATEMENTS| && Checked(READONLY_STATEMENTS[i])
  {
    if i == 18 {
      KeywordsAndChecked(READONLY_STATEMENTS[i], ["ANALYZE", "PROFILE", "FROM"], Str(None), []);
    } else {
      ThreeWords(["LOGICAL"], ["VERBOSE"], ["COSTS"]);
      ExplainedChecked(READONLY_STATEMENTS[i], ["EXPLAIN"], ExplainStyle(), Rest("inner_query"));
    }
  }

  lemma Checks20(i: nat)
    requires 20 <= i < 24
    ensures i < |READONLY_STATEMENTS| && Checked(READONLY_STATEMENTS[i])
  {
    if i == 20 {
      KeywordsChecked(READONLY_STATEMENTS[i], ["SHOW", "RUNNING", "QUERIES"]);
    } else if i == 21 {
      WhereChecked(READONLY_STATEMENTS[i], ["SHOW", "ANALYZE", "STATUS"],
                   {"ID", "DATABASE", "TABLE", "TYPE", "STATUS"});
    } else if i == 22 {
      WhereChecked(READONLY_STATEMENTS[i], ["SHOW", "STATS", "META"], {"DATABASE", "TABLE", "TYPE"});
    } else {
      OptDbDeclares();
      KeywordsAndChecked(READONLY_STATEMENTS[i], ["SHOW", "DYNAMIC", "PARTITION", "TABLES"], OptDb(),
                         [("database", false)]);
    }
  }

  lemma Checks24(i: nat)
    requires 24 <= i < 28
    ensures i < |READONLY_STATEMENTS| && Checked(READONLY_STATEMENTS[i])
  {
    if i == 24 {
      FromDbChecked(READONLY_STATEMENTS[i], ["SHOW", "DELETE"]);
    } else if i == 25 {
      FromDbChecked(READONLY_STATEMENTS[i], ["SHOW", "EXPORT"]);
    } else if i == 26 {
      OptFromDbDeclares();
      WordsDeclare(["WHERE", "ID"]);
      FiveChecked(READONLY_STATEMENTS[i], ["SHOW", "TRANSACTION"], OptFromDb(), Kw(["WHERE", "ID"]), Sym("="), Int,
                  [("database", false)], []);
    } else {
      KeywordsChecked(READONLY_STATEMENTS[i], ["SHOW", "COMPUTE", "NODES"]);
    }
  }

  lemma Checks28(i: nat)
    requires 28 <= i < 31
    ensures i < |READONLY_STATEMENTS| && Checked(READONLY_STATEMENTS[i])
  {
    if i == 28 {
      KeywordsChecked(READONLY_STATEMENTS[i], ["SHOW", "ROLES"]);
    } else if i == 29 {
      KeywordsAndChecked(READONLY_STATEMENTS[i], ["SHOW", "CREATE", "ROUTINE", "LOAD"], Name("job", 1, 2),
                         [("job", true)]);
    } else {
      EitherWords(["DESC"], ["DESCRIBE"]);
      MiddleRelationChecked(READONLY_STATEMENTS[i], DescribeKeyword(), Relation(), ["ALL"]);
    }
  }

  /** Every entry of the shipped list passes the import-time check. */
  lemma ShippedListChecked(i: nat)
    requires i < |READONLY_STATEMENTS|
    ensures Checked(READONLY_STATEMENTS[i])
  {
    if i < 4 {
      Checks0(i);
    } else if i < 8 {
      Checks4(i);
    } else if i < 12 {
      Checks8(i);
    } else if i < 16 {
      Checks12(i);
    } else if i < 18 {
      Checks16(i);
    } else if i < 20 {
      Checks18(i);
    } else if i < 24 {
      Checks20(i);
    } else if i < 28 {
      Checks24(i);
    } else {
      Checks28(i);
    }
  }

  /** Each entry has a family of its own. */
  lemma FamiliesDistinct(i: nat, j: nat)
    requires i < j < |READONLY_STATEMENTS|
    ensures READONLY_STATEMENTS[i].family != READONLY_STATEMENTS[j].family
  {
  }
}
