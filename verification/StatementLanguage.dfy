/**
 The language of the shipped list: which token sequences each row matches, said over the tokens without the
 grammar engine.
 */
module StatementLanguage {
  import opened Wrappers
  import Tokens = SqlTokens
  import opened ReadonlyStatements
  import opened StatementTargets
  import opened StatementList
  import opened StatementObjects

  // ---- tokens ----

  predicate Words(src: Input, p: nat, ws: seq<string>) { forall i :: 0 <= i < |ws| ==> WordIs(src, p + i, ws[i]) }

  /** A word, or something between backticks. */
  predicate Ident(src: Input, p: nat) {
    && p < |src.tokens|
    && (src.tokens[p].kind == Tokens.Word
        || (src.tokens[p].kind == Tokens.QuotedIdentifier && |src.tokens[p].text| > 2))
  }

  ghost predicate Literal(src: Input, p: nat) { exists x :: LiteralIs(src, p, x) }

  ghost predicate Numeral(src: Input, p: nat) { exists w :: WordIs(src, p, w) && Number(w) }

  /** `n` identifiers with dots between them. */
  predicate Dots(src: Input, p: nat, q: nat, n: nat) {
    && n > 0 && q == p + 2 * n - 1
    && (forall i: nat :: i < n ==> PartAt(src, p, i)) && (forall i: nat :: 0 < i < n ==> DotAt(src, p, i))
  }

  predicate PartAt(src: Input, p: nat, i: nat) { Ident(src, p + 2 * i) }

  predicate DotAt(src: Input, p: nat, i: nat)
    requires i > 0
  {
    SymbolIs(src, p + 2 * i - 1, ".")
  }

  /** A name of one to three parts. */
  predicate ShortName(src: Input, p: nat, q: nat) { Dots(src, p, q, 1) || Dots(src, p, q, 2) || Dots(src, p, q, 3) }

  // ---- parts of statements, from `p` to `q` ----

  predicate MayBe(src: Input, p: nat, q: nat, w: string) { q == p || (q == p + 1 && WordIs(src, p, w)) }

  predicate FromDatabase(src: Input, p: nat, q: nat) {
    q == p || (q == p + 2 && WordIs(src, p, "FROM") && Ident(src, p + 1))
  }

  predicate InDatabase(src: Input, p: nat, q: nat) {
    q == p || (q == p + 2 && (WordIs(src, p, "FROM") || WordIs(src, p, "IN")) && Ident(src, p + 1))
  }

  ghost predicate MayBeLike(src: Input, p: nat, q: nat) {
    q == p || (q == p + 2 && WordIs(src, p, "LIKE") && Literal(src, p + 1))
  }

  ghost predicate ViewsFilter(src: Input, p: nat, q: nat) {
    || MayBeLike(src, p, q)
    || (q == p + 4 && Words(src, p, ["WHERE", "NAME"]) && SymbolIs(src, p + 2, "=") && Literal(src, p + 3))
    || (q == p + 4 && Words(src, p, ["WHERE", "NAME", "LIKE"]) && Literal(src, p + 3))
  }

  ghost predicate TableFilter(src: Input, p: nat, q: nat) {
    || q == p
    || (q == p + 4 && Words(src, p, ["WHERE", "TABLENAME"]) && SymbolIs(src, p + 2, "=") && Literal(src, p + 3))
  }

  ghost predicate Functions(src: Input, p: nat, q: nat) {
    WordIs(src, p, "FUNCTIONS") && exists m: nat :: InDatabase(src, p + 1, m) && MayBeLike(src, m, q)
  }

  ghost predicate Filtered(src: Input, p: nat, q: nat) {
    exists m: nat :: InDatabase(src, p, m) && TableFilter(src, m, q)
  }

  ghost predicate WithId(src: Input, p: nat, q: nat) {
    q == p + 4 && Words(src, p, ["WHERE", "ID"]) && SymbolIs(src, p + 2, "=") && Numeral(src, p + 3)
  }

  predicate Altered(src: Input, p: nat, q: nat) {
    || (q == p + 1 && (WordIs(src, p, "COLUMN") || WordIs(src, p, "ROLLUP")))
    || (q == p + 2 && Words(src, p, ["MATERIALIZED", "VIEW"]))
  }

  /** A registered column, `=`, and a literal or a number. */
  ghost predicate Condition(src: Input, p: nat, columns: set<string>) {
    && src.Identifier(p).Some? && src.upper(src.Identifier(p).value) in columns
    && SymbolIs(src, p + 1, "=") && (Literal(src, p + 2) || Numeral(src, p + 2))
  }

  /** `k` further conditions. */
  ghost predicate Further(src: Input, p: nat, q: nat, columns: set<string>, k: nat) {
    q == p + 4 * k && forall j: nat :: j < k ==> FurtherAt(src, p, columns, j)
  }

  ghost predicate FurtherAt(src: Input, p: nat, columns: set<string>, j: nat) {
    WordIs(src, p + 4 * j, "AND") && Condition(src, p + 4 * j + 1, columns)
  }

  ghost predicate AllFurther(src: Input, p: nat, q: nat, columns: set<string>) {
    exists k: nat :: Further(src, p, q, columns, k)
  }

  ghost predicate Conditions(src: Input, p: nat, q: nat, columns: set<string>) {
    || q == p
    || (WordIs(src, p, "WHERE") && Condition(src, p + 1, columns) && AllFurther(src, p + 4, q, columns))
  }

  // ---- the rows ----

  ghost predicate ViewsStatement(src: Input) {
    var n := |src.tokens|;
    && Words(src, 0, ["SHOW", "MATERIALIZED", "VIEWS"])
    && exists m: nat :: InDatabase(src, 3, m) && ViewsFilter(src, m, n)
  }

  ghost predicate PartitionsStatement(src: Input) {
    var n := |src.tokens|;
    && Words(src, 0, ["SHOW"])
    && exists m: nat :: MayBe(src, 1, m, "TEMPORARY") && Words(src, m, ["PARTITIONS", "FROM"])
                        && ShortName(src, m + 2, n)
  }

  ghost predicate DataStatement(src: Input) {
    var n := |src.tokens|;
    && Words(src, 0, ["SHOW", "DATA"])
    && (n == 2 || (WordIs(src, 2, "FROM") && (Dots(src, 3, n, 1) || Dots(src, 3, n, 2))))
  }

  ghost predicate FunctionsStatement(src: Input) {
    var n := |src.tokens|;
    && Words(src, 0, ["SHOW"])
    && exists m: nat :: MayBe(src, 1, m, "FULL") && Functions(src, m, n)
  }

  ghost predicate ProfilelistStatement(src: Input) {
    var n := |src.tokens|;
    Words(src, 0, ["SHOW", "PROFILELIST"]) && (n == 2 || (n == 4 && WordIs(src, 2, "LIMIT") && Numeral(src, 3)))
  }

  ghost predicate AlterStatement(src: Input) {
    var n := |src.tokens|;
    && Words(src, 0, ["SHOW", "ALTER", "TABLE"])
    && exists m: nat :: Altered(src, 3, m) && Filtered(src, m, n)
  }

  ghost predicate ExplainStatement(src: Input) {
    var n := |src.tokens|;
    && Words(src, 0, ["EXPLAIN"]) && n > 2
    && (WordIs(src, 1, "LOGICAL") || WordIs(src, 1, "VERBOSE") || WordIs(src, 1, "COSTS"))
  }

  ghost predicate AnalyzeStatement(src: Input) {
    var n := |src.tokens|;
    && Words(src, 0, ["SHOW", "ANALYZE", "STATUS"])
    && Conditions(src, 3, n, {"ID", "DATABASE", "TABLE", "TYPE", "STATUS"})
  }

  ghost predicate StatsStatement(src: Input) {
    var n := |src.tokens|;
    Words(src, 0, ["SHOW", "STATS", "META"]) && Conditions(src, 3, n, {"DATABASE", "TABLE", "TYPE"})
  }

  ghost predicate TransactionStatement(src: Input) {
    var n := |src.tokens|;
    && Words(src, 0, ["SHOW", "TRANSACTION"])
    && exists m: nat :: FromDatabase(src, 2, m) && WithId(src, m, n)
  }

  ghost predicate JobStatement(src: Input) {
    var n := |src.tokens|;
    Words(src, 0, ["SHOW", "CREATE", "ROUTINE", "LOAD"]) && (Dots(src, 4, n, 1) || Dots(src, 4, n, 2))
  }

  ghost predicate DescribeStatement(src: Input) {
    var n := |src.tokens|;
    && (WordIs(src, 0, "DESC") || WordIs(src, 0, "DESCRIBE"))
    && n > 1 && ShortName(src, 1, n - 1) && WordIs(src, n - 1, "ALL")
  }

  ghost predicate LaterLanguage(i: nat, src: Input) {
    var n := |src.tokens|;
    if i == 19 then ExplainStatement(src)
    else if i == 20 then Words(src, 0, ["SHOW", "RUNNING", "QUERIES"]) && n == 3
    else if i == 21 then AnalyzeStatement(src)
    else if i == 22 then StatsStatement(src)
    else if i == 23 then Words(src, 0, ["SHOW", "DYNAMIC", "PARTITION", "TABLES"]) && InDatabase(src, 4, n)
    else if i == 24 then Words(src, 0, ["SHOW", "DELETE"]) && FromDatabase(src, 2, n)
    else if i == 25 then Words(src, 0, ["SHOW", "EXPORT"]) && FromDatabase(src, 2, n)
    else if i == 26 then TransactionStatement(src)
    else if i == 27 then Words(src, 0, ["SHOW", "COMPUTE", "NODES"]) && n == 3
    else if i == 28 then Words(src, 0, ["SHOW", "ROLES"]) && n == 2
    else if i == 29 then JobStatement(src)
    else if i == 30 then DescribeStatement(src)
    else false
  }

  /** The tokens are a statement of row `i`. */
  ghost predicate Language(i: nat, src: Input) {
    var n := |src.tokens|;
    if i == 0 then Words(src, 0, ["SHOW", "CREATE", "MATERIALIZED", "VIEW"]) && ShortName(src, 4, n)
    else if i == 1 then ViewsStatement(src)
    else if i == 2 then PartitionsStatement(src)
    else if i == 3 then Words(src, 0, ["SHOW", "TABLET", "FROM"]) && ShortName(src, 3, n)
    else if i == 4 then Words(src, 0, ["SHOW", "TABLET"]) && n == 3 && Numeral(src, 2)
    else if i == 5 then DataStatement(src)
    else if i == 6 then Words(src, 0, ["SHOW", "LOAD"]) && FromDatabase(src, 2, n)
    else if i == 7 then Words(src, 0, ["SHOW", "ROUTINE", "LOAD"]) && FromDatabase(src, 3, n)
    else if i == 8 then FunctionsStatement(src)
    else if i == 9 then Words(src, 0, ["SHOW", "CATALOGS"]) && n == 2
    else if i == 10 then Words(src, 0, ["SHOW", "FRONTENDS"]) && n == 2
    else if i == 11 then Words(src, 0, ["SHOW", "BACKENDS"]) && n == 2
    else if i == 12 then Words(src, 0, ["SHOW", "RESOURCE", "GROUPS"]) && n == 3
    else if i == 13 then Words(src, 0, ["SHOW", "PROC"]) && n == 3 && Literal(src, 2)
    else if i == 14 then ProfilelistStatement(src)
    else if i == 15 then AlterStatement(src)
    else if i == 16 then Words(src, 0, ["ADMIN", "SHOW", "REPLICA", "STATUS", "FROM"]) && ShortName(src, 5, n)
    else if i == 17 then Words(src, 0, ["ADMIN", "SHOW", "REPLICA", "DISTRIBUTION", "FROM"]) && ShortName(src, 5, n)
    else if i == 18 then Words(src, 0, ["ANALYZE", "PROFILE", "FROM"]) && n == 4 && Literal(src, 3)
    else LaterLanguage(i, src)
  }

  // ---- what the engine reads ----

  ghost predicate Takes(e: Element, src: Input, p: nat, q: nat) { exists caps: Captures :: Derives(e, src, p, q, caps) }

  ghost predicate Reads(es: seq<Element>, src: Input, p: nat, q: nat) {
    exists caps: Captures :: DerivesAll(es, src, p, q, caps)
  }

  lemma Nothing(src: Input, p: nat, q: nat)
    ensures Reads([], src, p, q) <==> q == p
  {
    assert q == p ==> DerivesAll([], src, p, q, []);
  }

  /** A sequence is its head and what is behind it. */
  lemma HeadTail(e: Element, es: seq<Element>, src: Input, p: nat, q: nat)
    ensures Reads([e] + es, src, p, q) <==> exists m: nat :: Takes(e, src, p, m) && Reads(es, src, m, q)
  {
    var all := [e] + es;
    assert all[1..] == es;
    if Reads(all, src, p, q) {
      var caps: Captures :| DerivesAll(all, src, p, q, caps);
      var m, front, back := Split(all, src, p, q, caps);
      assert Takes(e, src, p, m) && Reads(es, src, m, q);
    }
    if m: nat :| Takes(e, src, p, m) && Reads(es, src, m, q) {
      var front: Captures :| Derives(e, src, p, m, front);
      var back: Captures :| DerivesAll(es, src, m, q, back);
      assert DerivesAll(all, src, p, q, front + back);
    }
  }

  lemma One(e: Element, src: Input, p: nat, q: nat)
    ensures Reads([e], src, p, q) <==> Takes(e, src, p, q)
  {
    HeadTail(e, [], src, p, q);
    assert [e] + [] == [e];
    forall m: nat
      ensures Reads([], src, m, q) <==> q == m
    {
      Nothing(src, m, q);
    }
  }

  lemma WordsAre(ws: seq<string>, src: Input, p: nat, q: nat)
    ensures Takes(Kw(ws), src, p, q) <==> q == p + |ws| && Words(src, p, ws)
  {
    if q == p + |ws| && Words(src, p, ws) {
      assert Derives(Kw(ws), src, p, q, []);
    }
  }

  /** A sequence that starts with words. */
  lemma AfterWords(ws: seq<string>, es: seq<Element>, src: Input, p: nat, q: nat)
    ensures Reads([Kw(ws)] + es, src, p, q) <==> Words(src, p, ws) && Reads(es, src, p + |ws|, q)
  {
    HeadTail(Kw(ws), es, src, p, q);
    forall m: nat
      ensures Takes(Kw(ws), src, p, m) <==> m == p + |ws| && Words(src, p, ws)
    {
      WordsAre(ws, src, p, m);
    }
  }

  lemma AfterSymbol(c: string, es: seq<Element>, src: Input, p: nat, q: nat)
    ensures Reads([Sym(c)] + es, src, p, q) <==> SymbolIs(src, p, c) && Reads(es, src, p + 1, q)
  {
    HeadTail(Sym(c), es, src, p, q);
    forall m: nat
      ensures Takes(Sym(c), src, p, m) <==> m == p + 1 && SymbolIs(src, p, c)
    {
      assert m == p + 1 && SymbolIs(src, p, c) ==> Derives(Sym(c), src, p, m, []);
    }
  }

  lemma OptionIs(es: seq<Element>, src: Input, p: nat, q: nat)
    ensures Takes(Opt(es), src, p, q) <==> q == p || Reads(es, src, p, q)
  {
    var e := Opt(es);
    if q == p {
      assert Derives(e, src, p, q, []);
    }
    if Reads(es, src, p, q) {
      var caps: Captures :| DerivesAll(es, src, p, q, caps);
      assert Derives(e, src, p, q, caps);
    }
    if Takes(e, src, p, q) && q != p {
      var caps: Captures :| Derives(e, src, p, q, caps);
      assert DerivesAll(e.elements, src, p, q, caps);
    }
  }

  lemma ChoiceIs(alternatives: seq<Alternative>, src: Input, p: nat, q: nat)
    ensures Takes(OneOf(alternatives), src, p, q)
            <==> exists i :: 0 <= i < |alternatives| && Reads(alternatives[i].elements, src, p, q)
  {
    var e := OneOf(alternatives);
    if i :| 0 <= i < |alternatives| && Reads(alternatives[i].elements, src, p, q) {
      var caps: Captures :| DerivesAll(alternatives[i].elements, src, p, q, caps);
      assert Derives(e, src, p, q, caps);
    }
    if Takes(e, src, p, q) {
      var caps: Captures :| Derives(e, src, p, q, caps);
      var i :| 0 <= i < |alternatives| && DerivesAll(alternatives[i].elements, src, p, q, caps);
    }
  }

  lemma LiteralTaken(captured: Option<string>, src: Input, p: nat, q: nat)
    ensures Takes(Str(captured), src, p, q) <==> q == p + 1 && Literal(src, p)
  {
    if Literal(src, p) {
      var x :| LiteralIs(src, p, x);
      assert PlainLiteral(src, p) == Some(x);
    }
    if PlainLiteral(src, p).Some? {
      assert LiteralIs(src, p, PlainLiteral(src, p).value);
      var caps: Captures := if captured.Some? then [(captured.value, Text(PlainLiteral(src, p).value))] else [];
      assert Derives(Str(captured), src, p, p + 1, caps);
    }
  }

  lemma NumberTaken(src: Input, p: nat, q: nat)
    ensures Takes(Int, src, p, q) <==> q == p + 1 && Numeral(src, p)
  {
    if src.WordAt(p).Some? {
      DigitsAgree(src.WordAt(p).value);
    }
    if q == p + 1 && Numeral(src, p) {
      assert Derives(Int, src, p, q, []);
    }
    if Takes(Int, src, p, q) {
      assert WordIs(src, p, src.WordAt(p).value);
    }
  }

  lemma IdentIs(src: Input, p: nat)
    ensures src.Identifier(p).Some? <==> Ident(src, p)
  {
  }

  lemma DotsAre(src: Input, p: nat, n: nat)
    requires 1 <= n <= 3
    ensures DottedName(src, p, n) <==> Dots(src, p, p + 2 * n - 1, n)
  {
    IdentIs(src, p);
    IdentIs(src, p + 2);
    IdentIs(src, p + 4);
    assert DottedName(src, p, 1) <==> PartAt(src, p, 0);
    assert DottedName(src, p, 2) <==> PartAt(src, p, 0) && DotAt(src, p, 1) && PartAt(src, p, 1);
    assert DottedName(src, p, 3)
      <==> PartAt(src, p, 0) && DotAt(src, p, 1) && PartAt(src, p, 1) && DotAt(src, p, 2) && PartAt(src, p, 2);
  }

  /** A name of at most three parts. */
  lemma NameTaken(capture: string, least: nat, most: nat, src: Input, p: nat, q: nat)
    requires 1 <= least && most <= 3
    ensures Takes(Name(capture, least, most), src, p, q)
            <==> exists n: nat :: least <= n <= most && Dots(src, p, q, n)
  {
    var e := Name(capture, least, most);
    if Takes(e, src, p, q) {
      var caps: Captures :| Derives(e, src, p, q, caps);
      var n: nat :| NameOf(e, src, p, n, q, caps);
      DotsAre(src, p, n);
    }
    if n: nat :| least <= n <= most && Dots(src, p, q, n) {
      DotsAre(src, p, n);
      var caps: Captures := [(capture, Parts(NameParts(src, p, n)))];
      assert NameOf(e, src, p, n, q, caps);
      assert Derives(e, src, p, q, caps);
    }
  }

  // ---- the parts ----

  lemma DotOne(src: Input, p: nat, q: nat)
    ensures Dots(src, p, q, 1) <==> q == p + 1 && Ident(src, p)
  {
    assert PartAt(src, p, 0) <==> Ident(src, p);
  }

  lemma WordsThen(ws: seq<string>, e: Element, src: Input, p: nat, q: nat)
    ensures Reads([Kw(ws), e], src, p, q) <==> Words(src, p, ws) && Takes(e, src, p + |ws|, q)
  {
    AfterWords(ws, [e], src, p, q);
    One(e, src, p + |ws|, q);
    assert [Kw(ws)] + [e] == [Kw(ws), e];
  }

  lemma SymbolThen(c: string, e: Element, src: Input, p: nat, q: nat)
    ensures Reads([Sym(c), e], src, p, q) <==> SymbolIs(src, p, c) && Takes(e, src, p + 1, q)
  {
    AfterSymbol(c, [e], src, p, q);
    One(e, src, p + 1, q);
    assert [Sym(c)] + [e] == [Sym(c), e];
  }

  /** Words, a symbol, and one element more. */
  lemma WordsSymbolThen(ws: seq<string>, c: string, e: Element, src: Input, p: nat, q: nat)
    ensures Reads([Kw(ws), Sym(c), e], src, p, q)
            <==> Words(src, p, ws) && SymbolIs(src, p + |ws|, c) && Takes(e, src, p + |ws| + 1, q)
  {
    AfterWords(ws, [Sym(c), e], src, p, q);
    SymbolThen(c, e, src, p + |ws|, q);
    assert [Kw(ws)] + [Sym(c), e] == [Kw(ws), Sym(c), e];
  }

  lemma DatabaseName(src: Input, p: nat, q: nat)
    ensures Takes(Name("database", 1, 1), src, p, q) <==> q == p + 1 && Ident(src, p)
  {
    NameTaken("database", 1, 1, src, p, q);
    DotOne(src, p, q);
  }

  lemma FromDatabaseTaken(src: Input, p: nat, q: nat)
    ensures Takes(OptFromDb(), src, p, q) <==> FromDatabase(src, p, q)
  {
    OptionIs([Kw(["FROM"]), Name("database", 1, 1)], src, p, q);
    WordsThen(["FROM"], Name("database", 1, 1), src, p, q);
    DatabaseName(src, p + 1, q);
    WordAlone(src, p, "FROM");
  }

  lemma WordAlone(src: Input, p: nat, w: string)
    ensures Words(src, p, [w]) <==> WordIs(src, p, w)
  {
    assert Words(src, p, [w]) ==> WordIs(src, p + 0, [w][0]);
  }

  lemma FromOrInTaken(src: Input, p: nat, q: nat)
    ensures Takes(FromOrIn(), src, p, q) <==> q == p + 1 && (WordIs(src, p, "FROM") || WordIs(src, p, "IN"))
  {
    TwoWords("FROM", "IN", src, p, q);
  }

  /** A choice between two words. */
  lemma TwoWords(a: string, b: string, src: Input, p: nat, q: nat)
    ensures Takes(OneOf([Alternative([Kw([a])]), Alternative([Kw([b])])]), src, p, q)
            <==> q == p + 1 && (WordIs(src, p, a) || WordIs(src, p, b))
  {
    var choice := [Alternative([Kw([a])]), Alternative([Kw([b])])];
    ChoiceIs(choice, src, p, q);
    WordTaken(a, src, p, q);
    WordTaken(b, src, p, q);
    assert choice[0].elements == [Kw([a])] && choice[1].elements == [Kw([b])];
  }

  lemma WordTaken(w: string, src: Input, p: nat, q: nat)
    ensures Reads([Kw([w])], src, p, q) <==> q == p + 1 && WordIs(src, p, w)
  {
    One(Kw([w]), src, p, q);
    WordsAre([w], src, p, q);
    WordAlone(src, p, w);
  }

  lemma InDatabaseTaken(src: Input, p: nat, q: nat)
    ensures Takes(OptDb(), src, p, q) <==> InDatabase(src, p, q)
  {
    var name := Name("database", 1, 1);
    OptionIs([FromOrIn(), name], src, p, q);
    HeadTail(FromOrIn(), [name], src, p, q);
    assert [FromOrIn()] + [name] == [FromOrIn(), name];
    forall m: nat
      ensures Takes(FromOrIn(), src, p, m) <==> m == p + 1 && (WordIs(src, p, "FROM") || WordIs(src, p, "IN"))
    {
      FromOrInTaken(src, p, m);
    }
    One(name, src, p + 1, q);
    DatabaseName(src, p + 1, q);
  }

  lemma LikeTaken(src: Input, p: nat, q: nat)
    ensures Takes(Opt([Kw(["LIKE"]), Str(None)]), src, p, q) <==> MayBeLike(src, p, q)
    ensures Reads([Kw(["LIKE"]), Str(None)], src, p, q) <==> q == p + 2 && WordIs(src, p, "LIKE") && Literal(src, p + 1)
  {
    OptionIs([Kw(["LIKE"]), Str(None)], src, p, q);
    WordsThen(["LIKE"], Str(None), src, p, q);
    LiteralTaken(None, src, p + 1, q);
    WordAlone(src, p, "LIKE");
  }

  lemma MayBeTaken(w: string, src: Input, p: nat, q: nat)
    ensures Takes(Opt([Kw([w])]), src, p, q) <==> MayBe(src, p, q, w)
  {
    OptionIs([Kw([w])], src, p, q);
    WordTaken(w, src, p, q);
  }

  /** Words, `=` and a literal. */
  lemma FilterBy(ws: seq<string>, src: Input, p: nat, q: nat)
    ensures Reads([Kw(ws), Sym("="), Str(Some("relation_name"))], src, p, q)
            <==> q == p + |ws| + 2 && Words(src, p, ws) && SymbolIs(src, p + |ws|, "=") && Literal(src, p + |ws| + 1)
  {
    WordsSymbolThen(ws, "=", Str(Some("relation_name")), src, p, q);
    LiteralTaken(Some("relation_name"), src, p + |ws| + 1, q);
  }

  lemma WordsLiteral(ws: seq<string>, src: Input, p: nat, q: nat)
    ensures Reads([Kw(ws), Str(None)], src, p, q) <==> q == p + |ws| + 1 && Words(src, p, ws) && Literal(src, p + |ws|)
  {
    WordsThen(ws, Str(None), src, p, q);
    LiteralTaken(None, src, p + |ws|, q);
  }

  lemma FilterTaken(src: Input, p: nat, q: nat)
    ensures Takes(MaterializedViewFilter(), src, p, q)
            <==> || Reads([Kw(["LIKE"]), Str(None)], src, p, q)
                 || Reads([Kw(["WHERE", "NAME"]), Sym("="), Str(Some("relation_name"))], src, p, q)
                 || Reads([Kw(["WHERE", "NAME", "LIKE"]), Str(None)], src, p, q)
  {
    var choice := MaterializedViewFilter().alternatives;
    ChoiceIs(choice, src, p, q);
    assert choice[0].elements == [Kw(["LIKE"]), Str(None)];
    assert choice[1].elements == [Kw(["WHERE", "NAME"]), Sym("="), Str(Some("relation_name"))];
    assert choice[2].elements == [Kw(["WHERE", "NAME", "LIKE"]), Str(None)];
  }

  lemma ViewsFilterTaken(src: Input, p: nat, q: nat)
    ensures Takes(Opt([MaterializedViewFilter()]), src, p, q) <==> ViewsFilter(src, p, q)
  {
    OptionIs([MaterializedViewFilter()], src, p, q);
    One(MaterializedViewFilter(), src, p, q);
    FilterTaken(src, p, q);
    LikeTaken(src, p, q);
    FilterBy(["WHERE", "NAME"], src, p, q);
    WordsLiteral(["WHERE", "NAME", "LIKE"], src, p, q);
  }

  lemma TableFilterTaken(src: Input, p: nat, q: nat)
    ensures Takes(Opt([Kw(["WHERE", "TABLENAME"]), Sym("="), Str(Some("relation_name"))]), src, p, q)
            <==> TableFilter(src, p, q)
  {
    OptionIs([Kw(["WHERE", "TABLENAME"]), Sym("="), Str(Some("relation_name"))], src, p, q);
    FilterBy(["WHERE", "TABLENAME"], src, p, q);
  }

  lemma AlteredTaken(src: Input, p: nat, q: nat)
    ensures Takes(AlterKind(), src, p, q) <==> Altered(src, p, q)
  {
    var choice := AlterKind().alternatives;
    ChoiceIs(choice, src, p, q);
    WordTaken("COLUMN", src, p, q);
    WordTaken("ROLLUP", src, p, q);
    One(Kw(["MATERIALIZED", "VIEW"]), src, p, q);
    WordsAre(["MATERIALIZED", "VIEW"], src, p, q);
    assert choice[0].elements == [Kw(["COLUMN"])] && choice[1].elements == [Kw(["ROLLUP"])];
    assert choice[2].elements == [Kw(["MATERIALIZED", "VIEW"])];
  }

  lemma RelationTaken(src: Input, p: nat, q: nat)
    ensures Takes(Relation(), src, p, q) <==> ShortName(src, p, q)
  {
    NameTaken("relation", 1, 3, src, p, q);
  }

  // ---- conditions on registered columns ----

  lemma LiteralOrIntTaken(src: Input, p: nat, q: nat)
    ensures Takes(LiteralOrInt(), src, p, q) <==> q == p + 1 && (Literal(src, p) || Numeral(src, p))
  {
    var choice := LiteralOrInt().alternatives;
    ChoiceIs(choice, src, p, q);
    One(Str(None), src, p, q);
    One(Int, src, p, q);
    LiteralTaken(None, src, p, q);
    NumberTaken(src, p, q);
    assert choice[0].elements == [Str(None)] && choice[1].elements == [Int];
  }

  lemma ColumnTaken(columns: set<string>, src: Input, p: nat, q: nat)
    ensures Takes(Column(columns), src, p, q)
            <==> q == p + 1 && src.Identifier(p).Some? && src.upper(src.Identifier(p).value) in columns
  {
    if q == p + 1 && src.Identifier(p).Some? && src.upper(src.Identifier(p).value) in columns {
      assert Derives(Column(columns), src, p, q, []);
    }
  }

  /** A word and one condition, with `rest` behind it. */
  lemma ConditionThen(w: string, columns: set<string>, rest: seq<Element>, src: Input, p: nat, q: nat)
    ensures Reads([Kw([w])] + ([Column(columns)] + ([Sym("=")] + ([LiteralOrInt()] + rest))), src, p, q)
            <==> WordIs(src, p, w) && Condition(src, p + 1, columns) && Reads(rest, src, p + 4, q)
  {
    AfterWords([w], [Column(columns)] + ([Sym("=")] + ([LiteralOrInt()] + rest)), src, p, q);
    WordAlone(src, p, w);
    ColumnThen(columns, rest, src, p + 1, q);
  }

  lemma ColumnThen(columns: set<string>, rest: seq<Element>, src: Input, p: nat, q: nat)
    ensures Reads([Column(columns)] + ([Sym("=")] + ([LiteralOrInt()] + rest)), src, p, q)
            <==> Condition(src, p, columns) && Reads(rest, src, p + 3, q)
  {
    HeadTail(Column(columns), [Sym("=")] + ([LiteralOrInt()] + rest), src, p, q);
    forall m: nat
      ensures Takes(Column(columns), src, p, m)
              <==> m == p + 1 && src.Identifier(p).Some? && src.upper(src.Identifier(p).value) in columns
    {
      ColumnTaken(columns, src, p, m);
    }
    AfterSymbol("=", [LiteralOrInt()] + rest, src, p + 1, q);
    ValueThen(rest, src, p + 2, q);
  }

  lemma ValueThen(rest: seq<Element>, src: Input, p: nat, q: nat)
    ensures Reads([LiteralOrInt()] + rest, src, p, q)
            <==> (Literal(src, p) || Numeral(src, p)) && Reads(rest, src, p + 1, q)
  {
    HeadTail(LiteralOrInt(), rest, src, p, q);
    forall m: nat
      ensures Takes(LiteralOrInt(), src, p, m) <==> m == p + 1 && (Literal(src, p) || Numeral(src, p))
    {
      LiteralOrIntTaken(src, p, m);
    }
  }

  function AndCondition(columns: set<string>): seq<Element> {
    [Kw(["AND"]), Column(columns), Sym("="), LiteralOrInt()]
  }

  lemma AndTaken(columns: set<string>, src: Input, p: nat, q: nat)
    ensures Reads(AndCondition(columns), src, p, q) <==> q == p + 4 && FurtherAt(src, p, columns, 0)
  {
    ConditionThen("AND", columns, [], src, p, q);
    Nothing(src, p + 4, q);
    assert [Kw(["AND"])] + ([Column(columns)] + ([Sym("=")] + ([LiteralOrInt()] + []))) == AndCondition(columns);
  }

  lemma {:induction false} StepsAre(columns: set<string>, src: Input, p: nat, q: nat, k: nat)
    ensures Steps(AndCondition(columns), src, p, q, k) <==> Further(src, p, q, columns, k)
    decreases k
  {
    var es := AndCondition(columns);
    if k > 0 {
      FurtherStep(src, p, p + 4, q, columns, k);
      StepsAre(columns, src, p + 4, q, k - 1);
      if Steps(es, src, p, q, k) {
        var m := FirstStep(es, src, p, q, k);
        AndTaken(columns, src, p, m);
      }
      if Further(src, p, q, columns, k) {
        AndTaken(columns, src, p, p + 4);
        var caps: Captures :| DerivesAll(es, src, p, p + 4, caps);
        assert DerivesAll(es, src, p, p + 4, caps) && Steps(es, src, p + 4, q, k - 1);
      }
    }
  }

  lemma FirstStep(es: seq<Element>, src: Input, p: nat, q: nat, n: nat) returns (m: nat)
    requires n > 0 && Steps(es, src, p, q, n)
    ensures Reads(es, src, p, m) && Steps(es, src, m, q, n - 1)
  {
    var caps: Captures;
    m, caps :| DerivesAll(es, src, p, m, caps) && Steps(es, src, m, q, n - 1);
  }

  lemma HowOften(e: Element, src: Input, p: nat, q: nat, caps: Captures) returns (n: nat)
    requires e.Many? && Derives(e, src, p, q, caps)
    ensures Steps(e.elements, src, p, q, n)
  {
    match e
    case Many(elements) => n :| Steps(elements, src, p, q, n);
  }

  lemma FurtherStep(src: Input, p: nat, next: nat, q: nat, columns: set<string>, k: nat)
    requires k > 0 && next == p + 4
    ensures Further(src, p, q, columns, k) <==> FurtherAt(src, p, columns, 0) && Further(src, next, q, columns, k - 1)
  {
    forall j: nat | 0 < j < k
      ensures FurtherAt(src, p, columns, j) <==> FurtherAt(src, next, columns, j - 1)
    {
      assert p + 4 * j == next + 4 * (j - 1);
    }
    if Further(src, p, q, columns, k) {
      forall j: nat | j < k - 1
        ensures FurtherAt(src, next, columns, j)
      {
        assert FurtherAt(src, p, columns, j + 1);
      }
    }
  }

  lemma ManyTaken(columns: set<string>, src: Input, p: nat, q: nat)
    ensures Takes(Many(AndCondition(columns)), src, p, q) <==> AllFurther(src, p, q, columns)
  {
    var es := AndCondition(columns);
    var e := Many(es);
    assert e.elements == es;
    if Takes(e, src, p, q) {
      var caps: Captures :| Derives(e, src, p, q, caps);
      var k := HowOften(e, src, p, q, caps);
      StepsAre(columns, src, p, q, k);
    }
    if k: nat :| Further(src, p, q, columns, k) {
      StepsAre(columns, src, p, q, k);
      assert Derives(e, src, p, q, []);
    }
  }

  lemma ConditionsTaken(columns: set<string>, src: Input, p: nat, q: nat)
    ensures Takes(WhereRegistered(columns), src, p, q) <==> Conditions(src, p, q, columns)
  {
    var es := WhereRegistered(columns).elements;
    OptionIs(es, src, p, q);
    ConditionThen("WHERE", columns, [Many(AndCondition(columns))], src, p, q);
    One(Many(AndCondition(columns)), src, p + 4, q);
    ManyTaken(columns, src, p + 4, q);
    assert [Kw(["WHERE"])] + ([Column(columns)] + ([Sym("=")] + ([LiteralOrInt()] + [Many(AndCondition(columns))])))
        == es;
  }

  // ---- the rows, one by one ----

  ghost predicate RowMatches(i: nat, src: Input) {
    exists caps: Captures :: MatchesBy(READONLY_STATEMENTS, i, src, caps)
  }

  lemma RowReads(i: nat, src: Input)
    requires i < |READONLY_STATEMENTS|
    ensures RowMatches(i, src) <==> Reads(READONLY_STATEMENTS[i].pattern, src, 0, |src.tokens|)
  {
    if Reads(READONLY_STATEMENTS[i].pattern, src, 0, |src.tokens|) {
      var caps: Captures :| DerivesAll(READONLY_STATEMENTS[i].pattern, src, 0, |src.tokens|, caps);
      assert MatchesBy(READONLY_STATEMENTS, i, src, caps);
    }
  }

  /** Rows of words alone. */
  lemma WordRows(src: Input, i: nat)
    requires i in {9, 10, 11, 12, 20, 27, 28}
    ensures Reads(READONLY_STATEMENTS[i].pattern, src, 0, |src.tokens|) <==> Language(i, src)
  {
    var ws := READONLY_STATEMENTS[i].pattern[0].words;
    assert READONLY_STATEMENTS[i].pattern == [Kw(ws)];
    One(Kw(ws), src, 0, |src.tokens|);
    WordsAre(ws, src, 0, |src.tokens|);
  }

  /** Words, and a number or a literal behind them. */
  lemma ValueRow(ws: seq<string>, src: Input)
    ensures Reads([Kw(ws), Int], src, 0, |src.tokens|)
            <==> Words(src, 0, ws) && |src.tokens| == |ws| + 1 && Numeral(src, |ws|)
    ensures Reads([Kw(ws), Str(None)], src, 0, |src.tokens|)
            <==> Words(src, 0, ws) && |src.tokens| == |ws| + 1 && Literal(src, |ws|)
  {
    WordsThen(ws, Int, src, 0, |src.tokens|);
    WordsThen(ws, Str(None), src, 0, |src.tokens|);
    NumberTaken(src, |ws|, |src.tokens|);
    LiteralTaken(None, src, |ws|, |src.tokens|);
  }

  lemma ValueRows(src: Input)
    ensures Reads(ShowTabletId().pattern, src, 0, |src.tokens|) <==> Language(4, src)
    ensures Reads(ShowProc().pattern, src, 0, |src.tokens|) <==> Language(13, src)
    ensures Reads(AnalyzeProfile().pattern, src, 0, |src.tokens|) <==> Language(18, src)
  {
    ValueRow(["SHOW", "TABLET"], src);
    ValueRow(["SHOW", "PROC"], src);
    ValueRow(["ANALYZE", "PROFILE", "FROM"], src);
  }

  /** Words and a database. */
  lemma DatabaseRow(ws: seq<string>, src: Input)
    ensures Reads([Kw(ws), OptFromDb()], src, 0, |src.tokens|)
            <==> Words(src, 0, ws) && FromDatabase(src, |ws|, |src.tokens|)
    ensures Reads([Kw(ws), OptDb()], src, 0, |src.tokens|)
            <==> Words(src, 0, ws) && InDatabase(src, |ws|, |src.tokens|)
  {
    WordsThen(ws, OptFromDb(), src, 0, |src.tokens|);
    WordsThen(ws, OptDb(), src, 0, |src.tokens|);
    FromDatabaseTaken(src, |ws|, |src.tokens|);
    InDatabaseTaken(src, |ws|, |src.tokens|);
  }

  lemma LoadRows(src: Input)
    ensures Reads(ShowLoad().pattern, src, 0, |src.tokens|) <==> Language(6, src)
    ensures Reads(ShowRoutineLoad().pattern, src, 0, |src.tokens|) <==> Language(7, src)
  {
    DatabaseRow(["SHOW", "LOAD"], src);
    DatabaseRow(["SHOW", "ROUTINE", "LOAD"], src);
  }

  lemma PartitionTablesRow(src: Input)
    ensures Reads(ShowDynamicPartitionTables().pattern, src, 0, |src.tokens|) <==> Language(23, src)
  {
    DatabaseRow(["SHOW", "DYNAMIC", "PARTITION", "TABLES"], src);
  }

  lemma ExportRows(src: Input)
    ensures Reads(ShowDelete().pattern, src, 0, |src.tokens|) <==> Language(24, src)
    ensures Reads(ShowExport().pattern, src, 0, |src.tokens|) <==> Language(25, src)
  {
    DatabaseRow(["SHOW", "DELETE"], src);
    DatabaseRow(["SHOW", "EXPORT"], src);
  }

  lemma DatabaseRows(src: Input, i: nat)
    requires i in {6, 7, 23, 24, 25}
    ensures Reads(READONLY_STATEMENTS[i].pattern, src, 0, |src.tokens|) <==> Language(i, src)
  {
    if i < 8 {
      LoadRows(src);
    } else if i == 23 {
      PartitionTablesRow(src);
    } else {
      ExportRows(src);
    }
  }

  /** Words and an object. */
  lemma ObjectRows(src: Input, i: nat)
    requires i in {0, 3, 16, 17}
    ensures Reads(READONLY_STATEMENTS[i].pattern, src, 0, |src.tokens|) <==> Language(i, src)
  {
    var ws := READONLY_STATEMENTS[i].pattern[0].words;
    assert READONLY_STATEMENTS[i].pattern == [Kw(ws), Relation()];
    WordsThen(ws, Relation(), src, 0, |src.tokens|);
    RelationTaken(src, |ws|, |src.tokens|);
  }

  /** Words and conditions on registered columns. */
  lemma ConditionsRow(ws: seq<string>, columns: set<string>, src: Input)
    ensures Reads([Kw(ws), WhereRegistered(columns)], src, 0, |src.tokens|)
            <==> Words(src, 0, ws) && Conditions(src, |ws|, |src.tokens|, columns)
  {
    WordsThen(ws, WhereRegistered(columns), src, 0, |src.tokens|);
    ConditionsTaken(columns, src, |ws|, |src.tokens|);
  }

  lemma AnalyzeRow(src: Input)
    ensures Reads(ShowAnalyzeStatus().pattern, src, 0, |src.tokens|) <==> AnalyzeStatement(src)
  {
    ConditionsRow(["SHOW", "ANALYZE", "STATUS"], {"ID", "DATABASE", "TABLE", "TYPE", "STATUS"}, src);
  }

  lemma StatsRow(src: Input)
    ensures Reads(ShowStatsMeta().pattern, src, 0, |src.tokens|) <==> StatsStatement(src)
  {
    ConditionsRow(["SHOW", "STATS", "META"], {"DATABASE", "TABLE", "TYPE"}, src);
  }

  /** A database, and one element behind it. */
  lemma DatabaseThen(e: Element, src: Input, p: nat, q: nat)
    ensures Reads([OptDb(), e], src, p, q) <==> exists m: nat :: InDatabase(src, p, m) && Takes(e, src, m, q)
  {
    HeadTail(OptDb(), [e], src, p, q);
    assert [OptDb()] + [e] == [OptDb(), e];
    forall m: nat
      ensures Takes(OptDb(), src, p, m) <==> InDatabase(src, p, m)
      ensures Reads([e], src, m, q) <==> Takes(e, src, m, q)
    {
      InDatabaseTaken(src, p, m);
      One(e, src, m, q);
    }
  }

  lemma WordsDatabaseThen(ws: seq<string>, e: Element, src: Input, p: nat, q: nat)
    ensures Reads([Kw(ws), OptDb(), e], src, p, q)
            <==> Words(src, p, ws) && exists m: nat :: InDatabase(src, p + |ws|, m) && Takes(e, src, m, q)
  {
    AfterWords(ws, [OptDb(), e], src, p, q);
    assert [Kw(ws)] + [OptDb(), e] == [Kw(ws), OptDb(), e];
    DatabaseThen(e, src, p + |ws|, q);
  }

  lemma ViewsRow(src: Input)
    ensures Reads(ShowMaterializedViews().pattern, src, 0, |src.tokens|) <==> ViewsStatement(src)
  {
    var q, filter := |src.tokens|, Opt([MaterializedViewFilter()]);
    WordsDatabaseThen(["SHOW", "MATERIALIZED", "VIEWS"], filter, src, 0, q);
    forall m: nat
      ensures Takes(filter, src, m, q) <==> ViewsFilter(src, m, q)
    {
      ViewsFilterTaken(src, m, q);
    }
  }

  lemma PartitionsRow(src: Input)
    ensures Reads(ShowPartitions().pattern, src, 0, |src.tokens|) <==> PartitionsStatement(src)
  {
    var q, tail := |src.tokens|, [Kw(["PARTITIONS", "FROM"]), Relation()];
    AfterWords(["SHOW"], [Opt([Kw(["TEMPORARY"])])] + tail, src, 0, q);
    assert [Kw(["SHOW"])] + ([Opt([Kw(["TEMPORARY"])])] + tail) == ShowPartitions().pattern;
    HeadTail(Opt([Kw(["TEMPORARY"])]), tail, src, 1, q);
    forall m: nat
      ensures Takes(Opt([Kw(["TEMPORARY"])]), src, 1, m) <==> MayBe(src, 1, m, "TEMPORARY")
      ensures Reads(tail, src, m, q) <==> Words(src, m, ["PARTITIONS", "FROM"]) && ShortName(src, m + 2, q)
    {
      MayBeTaken("TEMPORARY", src, 1, m);
      WordsThen(["PARTITIONS", "FROM"], Relation(), src, m, q);
      RelationTaken(src, m + 2, q);
    }
  }

  lemma DataRow(src: Input)
    ensures Reads(ShowData().pattern, src, 0, |src.tokens|) <==> DataStatement(src)
  {
    var q, choice := |src.tokens|, DatabaseOrRelation().alternatives;
    WordsThen(["SHOW", "DATA"], Opt([Kw(["FROM"]), DatabaseOrRelation()]), src, 0, q);
    OptionIs([Kw(["FROM"]), DatabaseOrRelation()], src, 2, q);
    WordsThen(["FROM"], DatabaseOrRelation(), src, 2, q);
    WordAlone(src, 2, "FROM");
    ChoiceIs(choice, src, 3, q);
    assert choice[0].elements == [Name("database", 1, 1)] && choice[1].elements == [Name("relation", 2, 2)];
    One(Name("database", 1, 1), src, 3, q);
    One(Name("relation", 2, 2), src, 3, q);
    NameTaken("database", 1, 1, src, 3, q);
    NameTaken("relation", 2, 2, src, 3, q);
  }

  lemma FunctionsRow(src: Input)
    ensures Reads(ShowFunctions().pattern, src, 0, |src.tokens|) <==> FunctionsStatement(src)
  {
    var q, like := |src.tokens|, Opt([Kw(["LIKE"]), Str(None)]);
    var tail := [Kw(["FUNCTIONS"]), OptDb(), like];
    AfterWords(["SHOW"], [Opt([Kw(["FULL"])])] + tail, src, 0, q);
    assert [Kw(["SHOW"])] + ([Opt([Kw(["FULL"])])] + tail) == ShowFunctions().pattern;
    HeadTail(Opt([Kw(["FULL"])]), tail, src, 1, q);
    forall m: nat
      ensures Takes(Opt([Kw(["FULL"])]), src, 1, m) <==> MayBe(src, 1, m, "FULL")
      ensures Reads(tail, src, m, q) <==> Functions(src, m, q)
    {
      MayBeTaken("FULL", src, 1, m);
      FunctionsTail(src, m, q);
    }
  }

  lemma FunctionsTail(src: Input, m: nat, q: nat)
    ensures Reads([Kw(["FUNCTIONS"]), OptDb(), Opt([Kw(["LIKE"]), Str(None)])], src, m, q) <==> Functions(src, m, q)
  {
    var like := Opt([Kw(["LIKE"]), Str(None)]);
    WordsDatabaseThen(["FUNCTIONS"], like, src, m, q);
    WordAlone(src, m, "FUNCTIONS");
    forall b: nat
      ensures Takes(like, src, b, q) <==> MayBeLike(src, b, q)
    {
      LikeTaken(src, b, q);
    }
  }

  lemma ProfilelistRow(src: Input)
    ensures Reads(ShowProfilelist().pattern, src, 0, |src.tokens|) <==> ProfilelistStatement(src)
  {
    var q := |src.tokens|;
    WordsThen(["SHOW", "PROFILELIST"], Opt([Kw(["LIMIT"]), Int]), src, 0, q);
    OptionIs([Kw(["LIMIT"]), Int], src, 2, q);
    WordsThen(["LIMIT"], Int, src, 2, q);
    WordAlone(src, 2, "LIMIT");
    NumberTaken(src, 3, q);
  }

  lemma AlteredThen(rest: seq<Element>, src: Input, p: nat, q: nat)
    ensures Reads([AlterKind()] + rest, src, p, q) <==> exists m: nat :: Altered(src, p, m) && Reads(rest, src, m, q)
  {
    HeadTail(AlterKind(), rest, src, p, q);
    forall m: nat
      ensures Takes(AlterKind(), src, p, m) <==> Altered(src, p, m)
    {
      AlteredTaken(src, p, m);
    }
  }

  lemma AlterRow(src: Input)
    ensures Reads(ShowAlterTable().pattern, src, 0, |src.tokens|) <==> AlterStatement(src)
  {
    var q, filter := |src.tokens|, Opt([Kw(["WHERE", "TABLENAME"]), Sym("="), Str(Some("relation_name"))]);
    AfterWords(["SHOW", "ALTER", "TABLE"], [AlterKind()] + [OptDb(), filter], src, 0, q);
    assert [Kw(["SHOW", "ALTER", "TABLE"])] + ([AlterKind()] + [OptDb(), filter]) == ShowAlterTable().pattern;
    AlteredThen([OptDb(), filter], src, 3, q);
    forall a: nat
      ensures Reads([OptDb(), filter], src, a, q) <==> Filtered(src, a, q)
    {
      AlterTail(src, a, q);
    }
  }

  lemma AlterTail(src: Input, a: nat, q: nat)
    ensures Reads([OptDb(), Opt([Kw(["WHERE", "TABLENAME"]), Sym("="), Str(Some("relation_name"))])], src, a, q)
            <==> Filtered(src, a, q)
  {
    var filter := Opt([Kw(["WHERE", "TABLENAME"]), Sym("="), Str(Some("relation_name"))]);
    DatabaseThen(filter, src, a, q);
    forall b: nat
      ensures Takes(filter, src, b, q) <==> TableFilter(src, b, q)
    {
      TableFilterTaken(src, b, q);
    }
  }

  lemma ExplainRow(src: Input)
    ensures Reads(ExplainModifier().pattern, src, 0, |src.tokens|) <==> ExplainStatement(src)
  {
    var q := |src.tokens|;
    AfterWords(["EXPLAIN"], [ExplainStyle(), Rest("inner_query")], src, 0, q);
    WordAlone(src, 0, "EXPLAIN");
    assert [Kw(["EXPLAIN"])] + [ExplainStyle(), Rest("inner_query")] == ExplainModifier().pattern;
    StyledRest(src, q);
  }

  lemma StyledRest(src: Input, q: nat)
    requires q == |src.tokens|
    ensures Reads([ExplainStyle(), Rest("inner_query")], src, 1, q)
            <==> q > 2 && (WordIs(src, 1, "LOGICAL") || WordIs(src, 1, "VERBOSE") || WordIs(src, 1, "COSTS"))
  {
    HeadTail(ExplainStyle(), [Rest("inner_query")], src, 1, q);
    assert [ExplainStyle()] + [Rest("inner_query")] == [ExplainStyle(), Rest("inner_query")];
    forall m: nat
      ensures Takes(ExplainStyle(), src, 1, m)
              <==> m == 2 && (WordIs(src, 1, "LOGICAL") || WordIs(src, 1, "VERBOSE") || WordIs(src, 1, "COSTS"))
    {
      StyleTaken(src, 1, m);
    }
    One(Rest("inner_query"), src, 2, q);
    RestTaken(src, 2, q);
  }

  lemma StyleTaken(src: Input, p: nat, q: nat)
    ensures Takes(ExplainStyle(), src, p, q)
            <==> q == p + 1 && (WordIs(src, p, "LOGICAL") || WordIs(src, p, "VERBOSE") || WordIs(src, p, "COSTS"))
  {
    var choice := ExplainStyle().alternatives;
    ChoiceIs(choice, src, p, q);
    WordTaken("LOGICAL", src, p, q);
    WordTaken("VERBOSE", src, p, q);
    WordTaken("COSTS", src, p, q);
    assert choice[0].elements == [Kw(["LOGICAL"])] && choice[1].elements == [Kw(["VERBOSE"])];
    assert choice[2].elements == [Kw(["COSTS"])];
  }

  lemma RestTaken(src: Input, p: nat, q: nat)
    ensures Takes(Rest("inner_query"), src, p, q) <==> p < q == |src.tokens|
  {
    if p < q == |src.tokens| {
      var caps: Captures := [("inner_query", Range(src.tokens[p].startByte, src.tokens[q - 1].endByte))];
      assert Derives(Rest("inner_query"), src, p, q, caps);
    }
  }

  lemma TransactionRow(src: Input)
    ensures Reads(ShowTransaction().pattern, src, 0, |src.tokens|) <==> TransactionStatement(src)
  {
    var q, tail := |src.tokens|, [Kw(["WHERE", "ID"]), Sym("="), Int];
    AfterWords(["SHOW", "TRANSACTION"], [OptFromDb()] + tail, src, 0, q);
    assert [Kw(["SHOW", "TRANSACTION"])] + ([OptFromDb()] + tail) == ShowTransaction().pattern;
    HeadTail(OptFromDb(), tail, src, 2, q);
    forall m: nat
      ensures Takes(OptFromDb(), src, 2, m) <==> FromDatabase(src, 2, m)
      ensures Reads(tail, src, m, q) <==> WithId(src, m, q)
    {
      FromDatabaseTaken(src, 2, m);
      WordsSymbolThen(["WHERE", "ID"], "=", Int, src, m, q);
      NumberTaken(src, m + 3, q);
    }
  }

  lemma JobRow(src: Input)
    ensures Reads(ShowCreateRoutineLoad().pattern, src, 0, |src.tokens|) <==> JobStatement(src)
  {
    WordsThen(["SHOW", "CREATE", "ROUTINE", "LOAD"], Name("job", 1, 2), src, 0, |src.tokens|);
    NameTaken("job", 1, 2, src, 4, |src.tokens|);
  }

  lemma DescribeRow(src: Input)
    ensures Reads(DescribeAll().pattern, src, 0, |src.tokens|) <==> DescribeStatement(src)
  {
    var tail := [Relation(), Kw(["ALL"])];
    HeadTail(DescribeKeyword(), tail, src, 0, |src.tokens|);
    assert [DescribeKeyword()] + tail == DescribeAll().pattern;
    forall m: nat
      ensures Takes(DescribeKeyword(), src, 0, m) <==> m == 1 && (WordIs(src, 0, "DESC") || WordIs(src, 0, "DESCRIBE"))
    {
      TwoWords("DESC", "DESCRIBE", src, 0, m);
    }
    AllBehind(src, |src.tokens|);
  }

  lemma AllBehind(src: Input, q: nat)
    ensures Reads([Relation(), Kw(["ALL"])], src, 1, q)
            <==> q > 1 && ShortName(src, 1, q - 1) && WordIs(src, q - 1, "ALL")
  {
    HeadTail(Relation(), [Kw(["ALL"])], src, 1, q);
    assert [Relation()] + [Kw(["ALL"])] == [Relation(), Kw(["ALL"])];
    forall m: nat
      ensures Takes(Relation(), src, 1, m) <==> ShortName(src, 1, m)
      ensures Reads([Kw(["ALL"])], src, m, q) <==> q == m + 1 && WordIs(src, m, "ALL")
    {
      RelationTaken(src, 1, m);
      WordTaken("ALL", src, m, q);
    }
  }

  /** Where these statements stand in the list. */
  lemma Listed(s: ReadonlyStatement, i: nat)
    requires i < |READONLY_STATEMENTS| && READONLY_STATEMENTS[i] == s
    ensures forall src: Input :: RowMatches(i, src) <==> Reads(s.pattern, src, 0, |src.tokens|)
  {
    forall src: Input
      ensures RowMatches(i, src) <==> Reads(s.pattern, src, 0, |src.tokens|)
    {
      RowReads(i, src);
    }
  }

  lemma ViewsListed(src: Input)
    ensures RowMatches(1, src) <==> ViewsStatement(src)
  {
    Listed(ShowMaterializedViews(), 1);
    ViewsRow(src);
  }

  lemma PartitionsListed(src: Input)
    ensures RowMatches(2, src) <==> PartitionsStatement(src)
  {
    Listed(ShowPartitions(), 2);
    PartitionsRow(src);
  }

  lemma DataListed(src: Input)
    ensures RowMatches(5, src) <==> DataStatement(src)
  {
    Listed(ShowData(), 5);
    DataRow(src);
  }

  lemma FunctionsListed(src: Input)
    ensures RowMatches(8, src) <==> FunctionsStatement(src)
  {
    Listed(ShowFunctions(), 8);
    FunctionsRow(src);
  }

  lemma ProfilelistListed(src: Input)
    ensures RowMatches(14, src) <==> ProfilelistStatement(src)
  {
    Listed(ShowProfilelist(), 14);
    ProfilelistRow(src);
  }

  lemma AlterListed(src: Input)
    ensures RowMatches(15, src) <==> AlterStatement(src)
  {
    Listed(ShowAlterTable(), 15);
    AlterRow(src);
  }

  lemma ExplainListed(src: Input)
    ensures RowMatches(19, src) <==> ExplainStatement(src)
  {
    Listed(ExplainModifier(), 19);
    ExplainRow(src);
  }

  lemma AnalyzeListed(src: Input)
    ensures RowMatches(21, src) <==> AnalyzeStatement(src)
  {
    Listed(ShowAnalyzeStatus(), 21);
    AnalyzeRow(src);
  }

  lemma StatsListed(src: Input)
    ensures RowMatches(22, src) <==> StatsStatement(src)
  {
    Listed(ShowStatsMeta(), 22);
    StatsRow(src);
  }

  lemma TransactionListed(src: Input)
    ensures RowMatches(26, src) <==> TransactionStatement(src)
  {
    Listed(ShowTransaction(), 26);
    TransactionRow(src);
  }

  lemma JobListed(src: Input)
    ensures RowMatches(29, src) <==> JobStatement(src)
  {
    Listed(ShowCreateRoutineLoad(), 29);
    JobRow(src);
  }

  lemma DescribeListed(src: Input)
    ensures RowMatches(30, src) <==> DescribeStatement(src)
  {
    Listed(DescribeAll(), 30);
    DescribeRow(src);
  }

  lemma ViewsIs(src: Input)
    ensures RowMatches(1, src) <==> Language(1, src)
  {
    ViewsListed(src);
    assert Language(1, src) == ViewsStatement(src);
  }

  lemma PartitionsIs(src: Input)
    ensures RowMatches(2, src) <==> Language(2, src)
  {
    PartitionsListed(src);
    assert Language(2, src) == PartitionsStatement(src);
  }

  lemma DataIs(src: Input)
    ensures RowMatches(5, src) <==> Language(5, src)
  {
    DataListed(src);
    assert Language(5, src) == DataStatement(src);
  }

  lemma FunctionsIs(src: Input)
    ensures RowMatches(8, src) <==> Language(8, src)
  {
    FunctionsListed(src);
    assert Language(8, src) == FunctionsStatement(src);
  }

  lemma ProfilelistIs(src: Input)
    ensures RowMatches(14, src) <==> Language(14, src)
  {
    ProfilelistListed(src);
    assert Language(14, src) == ProfilelistStatement(src);
  }

  lemma AlterIs(src: Input)
    ensures RowMatches(15, src) <==> Language(15, src)
  {
    AlterListed(src);
    assert Language(15, src) == AlterStatement(src);
  }

  lemma ExplainIs(src: Input)
    ensures RowMatches(19, src) <==> LaterLanguage(19, src)
  {
    ExplainListed(src);
    assert LaterLanguage(19, src) == ExplainStatement(src);
  }

  lemma AnalyzeIs(src: Input)
    ensures RowMatches(21, src) <==> LaterLanguage(21, src)
  {
    AnalyzeListed(src);
    assert LaterLanguage(21, src) == AnalyzeStatement(src);
  }

  lemma StatsIs(src: Input)
    ensures RowMatches(22, src) <==> LaterLanguage(22, src)
  {
    StatsListed(src);
    assert LaterLanguage(22, src) == StatsStatement(src);
  }

  lemma TransactionIs(src: Input)
    ensures RowMatches(26, src) <==> LaterLanguage(26, src)
  {
    TransactionListed(src);
    assert LaterLanguage(26, src) == TransactionStatement(src);
  }

  lemma JobIs(src: Input)
    ensures RowMatches(29, src) <==> LaterLanguage(29, src)
  {
    JobListed(src);
    assert LaterLanguage(29, src) == JobStatement(src);
  }

  lemma DescribeIs(src: Input)
    ensures RowMatches(30, src) <==> LaterLanguage(30, src)
  {
    DescribeListed(src);
    assert LaterLanguage(30, src) == DescribeStatement(src);
  }

  lemma EarlySpecial(i: nat, src: Input)
    requires i in {1, 2, 5, 8, 14, 15}
    ensures RowMatches(i, src) <==> Language(i, src)
  {
    match i
    case 1 => ViewsIs(src);
    case 2 => PartitionsIs(src);
    case 5 => DataIs(src);
    case 8 => FunctionsIs(src);
    case 14 => ProfilelistIs(src);
    case 15 => AlterIs(src);
  }

  lemma LateSpecial(i: nat, src: Input)
    requires i in {19, 21, 22, 26, 29, 30}
    ensures RowMatches(i, src) <==> LaterLanguage(i, src)
  {
    match i
    case 19 => ExplainIs(src);
    case 21 => AnalyzeIs(src);
    case 22 => StatsIs(src);
    case 26 => TransactionIs(src);
    case 29 => JobIs(src);
    case 30 => DescribeIs(src);
  }

  lemma PlainRow(i: nat, src: Input)
    requires i in {0, 3, 4, 6, 7, 13, 16, 17, 18, 23, 24, 25}
    ensures Reads(READONLY_STATEMENTS[i].pattern, src, 0, |src.tokens|) <==> Language(i, src)
  {
    if i in {4, 13, 18} {
      ValueRows(src);
    } else if i in {6, 7, 23, 24, 25} {
      DatabaseRows(src, i);
    } else {
      ObjectRows(src, i);
    }
  }

  /** A row matches exactly the token sequences of its language. */
  lemma RowIff(i: nat, src: Input)
    requires i < 31
    ensures i < |READONLY_STATEMENTS| && (RowMatches(i, src) <==> Language(i, src))
  {
    Rows();
    RowReads(i, src);
    if i in {9, 10, 11, 12, 20, 27, 28} {
      WordRows(src, i);
    } else if i in {1, 2, 5, 8, 14, 15} {
      EarlySpecial(i, src);
    } else if i in {19, 21, 22, 26, 29, 30} {
      LateSpecial(i, src);
    } else {
      PlainRow(i, src);
    }
  }

  lemma Rows()
    ensures |READONLY_STATEMENTS| == 31
  {
  }

  lemma LanguageOfRow(i: nat, src: Input)
    requires Language(i, src)
    ensures i < 31
  {
  }

  /** The shipped list matches exactly the token sequences of these languages. */
  lemma ListIff(src: Input)
    ensures (exists m :: Matches(READONLY_STATEMENTS, src, m)) <==> exists i: nat :: Language(i, src)
  {
    Rows();
    if m :| Matches(READONLY_STATEMENTS, src, m) {
      MatchedInLanguage(src, m);
    }
    if i: nat :| Language(i, src) {
      LanguageOfRow(i, src);
      RowIff(i, src);
      RowMatched(i, src);
    }
  }

  lemma RowMatched(i: nat, src: Input)
    requires RowMatches(i, src)
    ensures exists m :: Matches(READONLY_STATEMENTS, src, m)
  {
    var caps: Captures :| MatchesBy(READONLY_STATEMENTS, i, src, caps);
    assert Matches(READONLY_STATEMENTS, src, ToMatch(READONLY_STATEMENTS[i], caps));
  }

  lemma MatchedInLanguage(src: Input, m: StatementMatch)
    requires Matches(READONLY_STATEMENTS, src, m)
    ensures exists i: nat :: Language(i, src)
  {
    var i, caps: Captures :| MatchesBy(READONLY_STATEMENTS, i, src, caps) && m == ToMatch(READONLY_STATEMENTS[i], caps);
    assert RowMatches(i, src);
    Rows();
    RowIff(i, src);
  }
}
