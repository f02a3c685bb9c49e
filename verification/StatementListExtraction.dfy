/**
 One entry's matches all extract the same objects, and the list as a whole is unambiguous:
 a statement it refuses is one it does not match at all.
 */
module StatementListExtraction {
  import opened Wrappers
  import opened ReadonlyStatements
  import opened StatementTargets
  import opened StatementList
  import opened StatementListTheorems
  import opened StatementListChecks
  import opened StatementObjects

  // ---- what each piece can capture ----

  /** The captures of a `relation` that fills the tokens from `p` to `q`. */
  function RelationCaps(src: Input, p: nat, q: nat): Captures {
    if p < q && (q - p) % 2 == 1 && DottedName(src, p, (q - p + 1) / 2)
    then [("relation", Parts(NameParts(src, p, (q - p + 1) / 2)))] else []
  }

  lemma RelationFills(src: Input, p: nat, q: nat, caps: Captures)
    requires Derives(Relation(), src, p, q, caps)
    ensures caps == RelationCaps(src, p, q) && Filled(src, p, q)
  {
    var n: nat :| NameOf(Relation(), src, p, n, q, caps);
    assert NameFills(src, p, q, n);
  }

  /** A name of one to three parts fills the tokens from `p` to `q`. */
  ghost predicate Filled(src: Input, p: nat, q: nat) { exists n: nat :: NameFills(src, p, q, n) }

  lemma OnePart(capture: string, src: Input, p: nat, q: nat, caps: Captures)
    requires Derives(Name(capture, 1, 1), src, p, q, caps)
    ensures q == p + 1 && src.Identifier(p).Some? && caps == [(capture, Parts([src.Identifier(p).value]))]
  {
    var n: nat :| NameOf(Name(capture, 1, 1), src, p, n, q, caps);
    assert n == 1 && NameParts(src, p, 0) == [];
    assert NameParts(src, p, 1) == [src.Identifier(p).value];
  }

  /** A sequence of one element. */
  lemma Single(e: Element, src: Input, p: nat, q: nat, caps: Captures)
    requires DerivesAll([e], src, p, q, caps)
    ensures Derives(e, src, p, q, caps)
  {
    var m, front, back := Split([e], src, p, q, caps);
    assert front + [] == front;
  }

  /** A sequence of two elements. */
  lemma Pair(a: Element, b: Element, src: Input, p: nat, q: nat, caps: Captures)
    returns (m: nat, front: Captures, back: Captures)
    requires DerivesAll([a, b], src, p, q, caps)
    ensures Derives(a, src, p, m, front) && Derives(b, src, m, q, back) && caps == front + back
  {
    m, front, back := Split([a, b], src, p, q, caps);
    assert [a, b][1..] == [b];
    Single(b, src, m, q, back);
  }

  predicate DatabaseWord(w: Option<string>) { w == Some("FROM") || w == Some("IN") }

  function DatabaseCaps(src: Input, p: nat): Captures {
    if DatabaseWord(src.WordAt(p)) && src.Identifier(p + 1).Some?
    then [("database", Parts([src.Identifier(p + 1).value]))] else []
  }

  lemma FromOrInReads(src: Input, p: nat, q: nat, caps: Captures)
    requires Derives(FromOrIn(), src, p, q, caps)
    ensures q == p + 1 && caps == [] && DatabaseWord(src.WordAt(p))
  {
    var alternatives := FromOrIn().alternatives;
    var i :| 0 <= i < |alternatives| && DerivesAll(alternatives[i].elements, src, p, q, caps);
    Single(alternatives[i].elements[0], src, p, q, caps);
    assert src.WordAt(p + 0) == Some(alternatives[i].elements[0].words[0]);
  }

  lemma OptDbReads(src: Input, p: nat, q: nat, caps: Captures)
    requires Derives(OptDb(), src, p, q, caps)
    ensures DbRead(src, p, q, caps)
  {
    if DerivesAll(OptDb().elements, src, p, q, caps) {
      var m, front, back := Pair(FromOrIn(), Name("database", 1, 1), src, p, q, caps);
      FromOrInReads(src, p, m, front);
      OnePart("database", src, m, q, back);
    }
  }

  // ---- what each entry captures ----

  lemma KeywordsThenRelation(s: ReadonlyStatement, words: seq<string>, src: Input, caps: Captures)
    requires s.pattern == [Kw(words), Relation()] && DerivesAll(s.pattern, src, 0, |src.tokens|, caps)
    ensures caps == RelationCaps(src, |words|, |src.tokens|) && Filled(src, |words|, |src.tokens|)
  {
    var m, front, back := Pair(Kw(words), Relation(), src, 0, |src.tokens|, caps);
    RelationFills(src, m, |src.tokens|, back);
  }

  lemma PartitionsCapture(s: ReadonlyStatement, option: string, then_: string, src: Input, caps: Captures)
    requires s.pattern == [Kw(["SHOW"]), Opt([Kw([option])]), Kw([then_, "FROM"]), Relation()] && option != then_
    requires DerivesAll(s.pattern, src, 0, |src.tokens|, caps)
    ensures var p := if src.WordAt(1) == Some(option) then 4 else 3;
            caps == RelationCaps(src, p, |src.tokens|) && Filled(src, p, |src.tokens|)
  {
    var q := |src.tokens|;
    Keywords(s.pattern, ["SHOW"], src, 0, q, caps);
    var m, front, back := Split(s.pattern[1..], src, 1, q, caps);
    if !(m == 1 && front == []) {
      Keywords([Kw([option])], [option], src, 1, m, front);
      FirstWords(src, 1, [option]);
    }
    Keywords(s.pattern[2..], [then_, "FROM"], src, m, q, back);
    FirstWords(src, m, [then_, "FROM"]);
    assert s.pattern[2..][1..] == [Relation()];
    Single(Relation(), src, m + 2, q, back);
    RelationFills(src, m + 2, q, back);
  }

  /** A choice between single words. */
  predicate Words(e: Element) {
    e.OneOf? && forall i :: 0 <= i < |e.alternatives| ==>
      |e.alternatives[i].elements| == 1 && e.alternatives[i].elements[0].Kw?
          && |e.alternatives[i].elements[0].words| == 1
  }

  lemma OneWord(e: Element, src: Input, p: nat, q: nat, caps: Captures)
    requires Words(e) && Derives(e, src, p, q, caps)
    ensures q == p + 1 && caps == []
  {
    var i :| 0 <= i < |e.alternatives| && DerivesAll(e.alternatives[i].elements, src, p, q, caps);
    var only := e.alternatives[i].elements[0];
    assert e.alternatives[i].elements == [only];
    Single(only, src, p, q, caps);
  }

  lemma DescribeKeywordReads(src: Input, p: nat, q: nat, caps: Captures)
    requires Derives(DescribeKeyword(), src, p, q, caps)
    ensures q == p + 1 && caps == []
  {
    OneWord(DescribeKeyword(), src, p, q, caps);
  }

  lemma ExplainStyleReads(src: Input, p: nat, q: nat, caps: Captures)
    requires Derives(ExplainStyle(), src, p, q, caps)
    ensures q == p + 1 && caps == []
  {
    OneWord(ExplainStyle(), src, p, q, caps);
  }

  lemma DescribeCaptures(s: ReadonlyStatement, src: Input, caps: Captures)
    requires s.pattern == [DescribeKeyword(), Relation(), Kw(["ALL"])]
    requires DerivesAll(s.pattern, src, 0, |src.tokens|, caps)
    ensures |src.tokens| > 0 && caps == RelationCaps(src, 1, |src.tokens| - 1) && Filled(src, 1, |src.tokens| - 1)
  {
    var back := BehindDescribe(s, src, caps);
    DescribedReads(src, |src.tokens|, back);
  }

  lemma BehindDescribe(s: ReadonlyStatement, src: Input, caps: Captures) returns (back: Captures)
    requires s.pattern == [DescribeKeyword(), Relation(), Kw(["ALL"])]
    requires DerivesAll(s.pattern, src, 0, |src.tokens|, caps)
    ensures DerivesAll([Relation(), Kw(["ALL"])], src, 1, |src.tokens|, back) && caps == back
  {
    var m: nat, front: Captures;
    m, front, back := Split(s.pattern, src, 0, |src.tokens|, caps);
    DescribeKeywordReads(src, 0, m, front);
    assert s.pattern[1..] == [Relation(), Kw(["ALL"])];
    assert [] + back == back;
  }

  lemma DescribedReads(src: Input, q: nat, caps: Captures)
    requires DerivesAll([Relation(), Kw(["ALL"])], src, 1, q, caps)
    ensures q > 0 && caps == RelationCaps(src, 1, q - 1) && Filled(src, 1, q - 1)
  {
    var k, relation, rest := Pair(Relation(), Kw(["ALL"]), src, 1, q, caps);
    RelationFills(src, 1, k, relation);
    assert relation + [] == relation;
  }

  lemma ExplainCaptures(s: ReadonlyStatement, src: Input, caps: Captures)
    requires s.pattern == [Kw(["EXPLAIN"]), ExplainStyle(), Rest("inner_query")]
    requires DerivesAll(s.pattern, src, 0, |src.tokens|, caps)
    ensures |src.tokens| > 2
    ensures caps == [("inner_query", Range(src.tokens[2].startByte, src.tokens[|src.tokens| - 1].endByte))]
  {
    var q := |src.tokens|;
    Keywords(s.pattern, ["EXPLAIN"], src, 0, q, caps);
    assert s.pattern[1..] == [ExplainStyle(), Rest("inner_query")];
    var m, front, back := Pair(ExplainStyle(), Rest("inner_query"), src, 1, q, caps);
    ExplainStyleReads(src, 1, m, front);
  }

  function DataCaps(src: Input): Captures {
    if |src.tokens| == 4 && src.Identifier(3).Some? then [("database", Parts([src.Identifier(3).value]))]
    else if |src.tokens| == 6 then RelationCaps(src, 3, 6)
    else []
  }

  lemma DataCaptures(s: ReadonlyStatement, src: Input, caps: Captures)
    requires s.pattern == [Kw(["SHOW", "DATA"]), Opt([Kw(["FROM"]), DatabaseOrRelation()])]
    requires DerivesAll(s.pattern, src, 0, |src.tokens|, caps)
    ensures caps == DataCaps(src) && (|src.tokens| == 6 ==> Filled(src, 3, 6))
  {
    var q := |src.tokens|;
    var option := Opt([Kw(["FROM"]), DatabaseOrRelation()]);
    var m, front, back := Pair(Kw(["SHOW", "DATA"]), option, src, 0, q, caps);
    assert caps == back;
    if !(q == 2 && back == []) {
      var k, word, found := Pair(Kw(["FROM"]), DatabaseOrRelation(), src, 2, q, back);
      assert back == found;
      DatabaseOrRelationReads(src, 3, q, found);
    }
  }

  lemma DatabaseOrRelationReads(src: Input, p: nat, q: nat, caps: Captures)
    requires Derives(DatabaseOrRelation(), src, p, q, caps)
    ensures || (q == p + 1 && src.Identifier(p).Some? && caps == [("database", Parts([src.Identifier(p).value]))])
            || (q == p + 3 && caps == RelationCaps(src, p, q) && Filled(src, p, q))
  {
    var alternatives := DatabaseOrRelation().alternatives;
    var i :| 0 <= i < |alternatives| && DerivesAll(alternatives[i].elements, src, p, q, caps);
    if i == 0 {
      Single(Name("database", 1, 1), src, p, q, caps);
      OnePart("database", src, p, q, caps);
    } else {
      Single(Name("relation", 2, 2), src, p, q, caps);
      var n: nat :| NameOf(Name("relation", 2, 2), src, p, n, q, caps);
      assert n == 2 && (q - p + 1) / 2 == 2 && NameFills(src, p, q, n);
    }
  }

  /** The captures of an optional database from `p` on. */
  function DbCaps(src: Input, p: nat, q: nat): Captures {
    if p < q && DatabaseWord(src.WordAt(p)) then DatabaseCaps(src, p) else []
  }

  function NameCaps(src: Input, p: nat): Captures {
    if PlainLiteral(src, p).Some? then [("relation_name", Text(PlainLiteral(src, p).value))] else []
  }

  /** The captures of an optional database at `k` and an optional filter that ends the tokens. */
  function FilterCaps(src: Input, k: nat): Captures {
    var q := |src.tokens|;
    DbCaps(src, k, q) + (if q >= 2 && src.SymbolAt(q - 2) == Some("=") then NameCaps(src, q - 1) else [])
  }

  /** A filter that fills the tokens from `p` to `q` does not start like a database and names an object
      exactly if `=` stands in front of its last token. */
  predicate FilterRead(src: Input, p: nat, q: nat, caps: Captures) {
    && p + 2 <= q && src.WordAt(p).Some? && !DatabaseWord(src.WordAt(p))
    && (if src.SymbolAt(q - 2) == Some("=") then PlainLiteral(src, q - 1).Some? && caps == NameCaps(src, q - 1)
        else caps == [])
  }

  lemma ViewFilterReads(src: Input, p: nat, q: nat, caps: Captures)
    requires Derives(MaterializedViewFilter(), src, p, q, caps)
    ensures FilterRead(src, p, q, caps)
  {
    var alternatives := MaterializedViewFilter().alternatives;
    var i :| 0 <= i < |alternatives| && DerivesAll(alternatives[i].elements, src, p, q, caps);
    if i == 0 {
      LiteralFilterReads(["LIKE"], src, p, q, caps);
    } else if i == 1 {
      NamedFilterReads("NAME", src, p, q, caps);
    } else {
      LiteralFilterReads(["WHERE", "NAME", "LIKE"], src, p, q, caps);
    }
  }

  lemma LiteralFilterReads(words: seq<string>, src: Input, p: nat, q: nat, caps: Captures)
    requires words != [] && words[0] != "FROM" && words[0] != "IN"
    requires DerivesAll([Kw(words), Str(None)], src, p, q, caps)
    ensures FilterRead(src, p, q, caps)
  {
    LiteralBehind(words, src, p, q, caps);
    assert src.WordAt(p + 0) == Some(words[0]) && src.WordAt(p + (|words| - 1)) == Some(words[|words| - 1]);
    NoEqualsBehindDb(src, q);
  }

  lemma LiteralBehind(words: seq<string>, src: Input, p: nat, q: nat, caps: Captures)
    requires words != [] && DerivesAll([Kw(words), Str(None)], src, p, q, caps)
    ensures WordsAt(src, p, words) && q == p + |words| + 1 && caps == []
  {
    Keywords([Kw(words), Str(None)], words, src, p, q, caps);
    assert [Kw(words), Str(None)][1..] == [Str(None)];
    Single(Str(None), src, p + |words|, q, caps);
  }

  lemma NamedFilterReads(column: string, src: Input, p: nat, q: nat, caps: Captures)
    requires DerivesAll([Kw(["WHERE", column]), Sym("="), Str(Some("relation_name"))], src, p, q, caps)
    ensures FilterRead(src, p, q, caps) && src.SymbolAt(q - 2) == Some("=")
  {
    var es := [Kw(["WHERE", column]), Sym("="), Str(Some("relation_name"))];
    Keywords(es, ["WHERE", column], src, p, q, caps);
    FirstWords(src, p, ["WHERE", column]);
    assert es[1..] == [Sym("="), Str(Some("relation_name"))];
    var m, front, back := Pair(Sym("="), Str(Some("relation_name")), src, p + 2, q, caps);
  }

  lemma Append3(a: Captures, b: Captures, c: Captures)
    ensures a + (b + c) == a + b + c
  {
  }

  /** A sequence of three elements. */
  lemma Triple(a: Element, b: Element, c: Element, src: Input, p: nat, q: nat, caps: Captures)
    returns (m: nat, k: nat, first: Captures, second: Captures, third: Captures)
    requires DerivesAll([a, b, c], src, p, q, caps)
    ensures Derives(a, src, p, m, first) && Derives(b, src, m, k, second) && Derives(c, src, k, q, third)
    ensures caps == first + second + third
  {
    var rest: Captures;
    m, first, rest := Split([a, b, c], src, p, q, caps);
    assert [a, b, c][1..] == [b, c];
    k, second, third := Pair(b, c, src, m, q, rest);
    Append3(first, second, third);
  }

  /** Keywords in front of two elements. */
  lemma KeywordsThenTwo(words: seq<string>, b: Element, c: Element, src: Input, q: nat, caps: Captures)
    returns (m: nat, front: Captures, back: Captures)
    requires DerivesAll([Kw(words), b, c], src, 0, q, caps)
    ensures |words| > 1 ==> src.WordAt(1) == Some(words[1])
    ensures |words| > 2 ==> src.WordAt(2) == Some(words[2])
    ensures Derives(b, src, |words|, m, front) && Derives(c, src, m, q, back) && caps == front + back
  {
    Keywords([Kw(words), b, c], words, src, 0, q, caps);
    FirstWords(src, 0, words);
    assert [Kw(words), b, c][1..] == [b, c];
    m, front, back := Pair(b, c, src, |words|, q, caps);
  }

  lemma ViewsCapture(s: ReadonlyStatement, src: Input, caps: Captures)
    requires s.pattern == [Kw(["SHOW", "MATERIALIZED", "VIEWS"]), OptDb(), Opt([MaterializedViewFilter()])]
    requires DerivesAll(s.pattern, src, 0, |src.tokens|, caps)
    ensures caps == FilterCaps(src, 3) && FilterFits(src, 3)
  {
    var m, front, back := KeywordsThenTwo(["SHOW", "MATERIALIZED", "VIEWS"], OptDb(), Opt([MaterializedViewFilter()]),
                                          src, |src.tokens|, caps);
    OptDbReads(src, 3, m, front);
    ViewsTail(src, m, front, back);
    FilterTail(src, 3, m, front, back);
  }

  /** The object of a filter that ends the tokens, with the database at `p`, can be read. */
  predicate FilterFits(src: Input, p: nat) {
    var q := |src.tokens|;
    q >= 2 && src.SymbolAt(q - 2) == Some("=") ==>
      PlainLiteral(src, q - 1).Some? && (DatabaseWord(src.WordAt(p)) ==> src.Identifier(p + 1).Some?)
  }

  /** The optional database has been read: nothing, or two tokens. */
  predicate DbRead(src: Input, p: nat, m: nat, caps: Captures) {
    || (m == p && caps == [])
    || (m == p + 2 && DatabaseWord(src.WordAt(p)) && src.Identifier(p + 1).Some? && caps == DatabaseCaps(src, p))
  }

  /** Behind the optional database the tokens end without `=`, or a filter fills them. */
  predicate FilterOrEnd(src: Input, m: nat, back: Captures) {
    var q := |src.tokens|;
    (m == q && back == [] && q >= 2 && src.SymbolAt(q - 2) != Some("=")) || FilterRead(src, m, q, back)
  }

  lemma FilterTail(src: Input, k: nat, m: nat, front: Captures, back: Captures)
    requires DbRead(src, k, m, front) && FilterOrEnd(src, m, back)
    ensures front + back == FilterCaps(src, k) && FilterFits(src, k)
  {
    assert DbCaps(src, k, |src.tokens|) == front;
  }

  lemma ViewsTail(src: Input, m: nat, front: Captures, back: Captures)
    requires src.WordAt(1).Some? && src.WordAt(2).Some? && DbRead(src, 3, m, front)
    requires Derives(Opt([MaterializedViewFilter()]), src, m, |src.tokens|, back)
    ensures FilterOrEnd(src, m, back)
  {
    var q := |src.tokens|;
    if m == q && back == [] {
      NoEqualsBehindDb(src, m);
    } else {
      Single(MaterializedViewFilter(), src, m, q, back);
      ViewFilterReads(src, m, q, back);
    }
  }

  /** Where nothing follows the optional database, the token two from the end is a word. */
  lemma NoEqualsBehindDb(src: Input, q: nat)
    requires q >= 2 && src.WordAt(q - 2).Some?
    ensures src.SymbolAt(q - 2) != Some("=")
  {
  }

  /** Where the optional database stands. */
  function AlterDb(src: Input): nat { if src.WordAt(3) == Some("MATERIALIZED") then 5 else 4 }

  lemma AlterKindReads(src: Input, p: nat, q: nat, caps: Captures)
    requires Derives(AlterKind(), src, p, q, caps)
    ensures caps == [] && q == p + (if src.WordAt(p) == Some("MATERIALIZED") then 2 else 1)
  {
    var alternatives := AlterKind().alternatives;
    var i :| 0 <= i < |alternatives| && DerivesAll(alternatives[i].elements, src, p, q, caps);
    var words := alternatives[i].elements[0].words;
    Keywords(alternatives[i].elements, words, src, p, q, caps);
    FirstWords(src, p, words);
    assert alternatives[i].elements[1..] == [];
    Done(src, p + |words|, q, caps);
  }

  lemma AlterCaptures(s: ReadonlyStatement, src: Input, caps: Captures)
    requires s.pattern == [Kw(["SHOW", "ALTER", "TABLE"]), AlterKind(), OptDb(),
                           Opt([Kw(["WHERE", "TABLENAME"]), Sym("="), Str(Some("relation_name"))])]
    requires DerivesAll(s.pattern, src, 0, |src.tokens|, caps)
    ensures caps == FilterCaps(src, AlterDb(src)) && FilterFits(src, AlterDb(src))
  {
    var q := |src.tokens|;
    var filter := [Kw(["WHERE", "TABLENAME"]), Sym("="), Str(Some("relation_name"))];
    Keywords(s.pattern, ["SHOW", "ALTER", "TABLE"], src, 0, q, caps);
    FirstWords(src, 0, ["SHOW", "ALTER", "TABLE"]);
    assert s.pattern[1..] == [AlterKind(), OptDb(), Opt(filter)];
    AlterBehind(src, filter, caps);
  }

  lemma AlterBehind(src: Input, filter: seq<Element>, caps: Captures)
    requires filter == [Kw(["WHERE", "TABLENAME"]), Sym("="), Str(Some("relation_name"))]
    requires DerivesAll([AlterKind(), OptDb(), Opt(filter)], src, 3, |src.tokens|, caps) && src.WordAt(2).Some?
    ensures caps == FilterCaps(src, AlterDb(src)) && FilterFits(src, AlterDb(src))
  {
    var k, m, kind, front, back := Triple(AlterKind(), OptDb(), Opt(filter), src, 3, |src.tokens|, caps);
    AlterKindReads(src, 3, k, kind);
    OptDbReads(src, k, m, front);
    AlterTail(src, k, m, front, back, filter);
    FilterTail(src, k, m, front, back);
    assert [] + front == front;
  }

  lemma AlterTail(src: Input, k: nat, m: nat, front: Captures, back: Captures, filter: seq<Element>)
    requires filter == [Kw(["WHERE", "TABLENAME"]), Sym("="), Str(Some("relation_name"))]
    requires k == AlterDb(src) && src.WordAt(2).Some?
    requires DbRead(src, k, m, front) && Derives(Opt(filter), src, m, |src.tokens|, back)
    ensures FilterOrEnd(src, m, back)
  {
    if m == |src.tokens| && back == [] {
      assert src.WordAt(|src.tokens| - 2).Some?;
      NoEqualsBehindDb(src, m);
    } else {
      NamedFilterReads("TABLENAME", src, m, |src.tokens|, back);
    }
  }

  // ---- the list is unambiguous ----

  /** Two complete matches of one entry extract the same. */
  lemma SameExtraction(i: nat, src: Input, a: Captures, b: Captures)
    requires MatchesBy(READONLY_STATEMENTS, i, src, a) && MatchesBy(READONLY_STATEMENTS, i, src, b)
    ensures ToMatch(READONLY_STATEMENTS[i], a) == ToMatch(READONLY_STATEMENTS[i], b)
  {
    if READONLY_STATEMENTS[i].target == NoTarget {
      ShippedListChecked(i);
      NothingExtracted(READONLY_STATEMENTS[i], src, a);
      NothingExtracted(READONLY_STATEMENTS[i], src, b);
    } else {
      CapturesDetermined(i, src, a);
      CapturesDetermined(i, src, b);
    }
  }

  lemma NothingExtracted(s: ReadonlyStatement, src: Input, caps: Captures)
    requires s.target == NoTarget && Checked(s) && DerivesAll(s.pattern, src, 0, |src.tokens|, caps)
    ensures ToMatch(s, caps) == StatementMatch(s.family, [], None)
  {
    CheckImpliesExtraction(s, src, |src.tokens|, caps);
  }

  /** The captures of every entry with a target, read off the tokens alone. */
  function CapturesOf(i: nat, src: Input): Captures {
    var q := |src.tokens|;
    if i == 0 then RelationCaps(src, 4, q)
    else if i == 1 then FilterCaps(src, 3)
    else if i == 2 then RelationCaps(src, if src.WordAt(1) == Some("TEMPORARY") then 4 else 3, q)
    else if i == 3 then RelationCaps(src, 3, q)
    else if i == 5 then DataCaps(src)
    else if i == 15 then FilterCaps(src, AlterDb(src))
    else if i == 16 || i == 17 then RelationCaps(src, 5, q)
    else if i == 19 then
      if q > 2 then [("inner_query", Range(src.tokens[2].startByte, src.tokens[q - 1].endByte))] else []
    else if q > 0 then RelationCaps(src, 1, q - 1)
    else []
  }

  predicate HasTarget(i: nat) { i in {0, 1, 2, 3, 5, 15, 16, 17, 19, 30} }

  lemma TargetsListed(i: nat)
    requires i < |READONLY_STATEMENTS| && READONLY_STATEMENTS[i].target != NoTarget
    ensures HasTarget(i)
  {
  }

  lemma CapturesDetermined(i: nat, src: Input, caps: Captures)
    requires MatchesBy(READONLY_STATEMENTS, i, src, caps) && READONLY_STATEMENTS[i].target != NoTarget
    ensures caps == CapturesOf(i, src)
  {
    TargetsListed(i);
    if i == 0 || i == 3 {
      RelationEntries(i, src, caps);
    } else if i == 16 || i == 17 {
      ReplicaEntries(i, src, caps);
    } else if i == 1 {
      ViewsCapture(READONLY_STATEMENTS[i], src, caps);
    } else if i == 2 {
      PartitionsCapture(READONLY_STATEMENTS[i], "TEMPORARY", "PARTITIONS", src, caps);
    } else if i == 5 {
      DataCaptures(READONLY_STATEMENTS[i], src, caps);
    } else if i == 15 {
      AlterCaptures(READONLY_STATEMENTS[i], src, caps);
    } else if i == 19 {
      ExplainCaptures(READONLY_STATEMENTS[i], src, caps);
    } else {
      DescribeCaptures(READONLY_STATEMENTS[i], src, caps);
    }
  }

  lemma RelationEntries(i: nat, src: Input, caps: Captures)
    requires (i == 0 || i == 3) && MatchesBy(READONLY_STATEMENTS, i, src, caps)
    ensures caps == CapturesOf(i, src) && Filled(src, if i == 0 then 4 else 3, |src.tokens|)
  {
    if i == 0 {
      KeywordsThenRelation(READONLY_STATEMENTS[i], ["SHOW", "CREATE", "MATERIALIZED", "VIEW"], src, caps);
    } else {
      KeywordsThenRelation(READONLY_STATEMENTS[i], ["SHOW", "TABLET", "FROM"], src, caps);
    }
  }

  lemma ReplicaEntries(i: nat, src: Input, caps: Captures)
    requires (i == 16 || i == 17) && MatchesBy(READONLY_STATEMENTS, i, src, caps)
    ensures caps == CapturesOf(i, src) && Filled(src, 5, |src.tokens|)
  {
    if i == 16 {
      KeywordsThenRelation(READONLY_STATEMENTS[i], ["ADMIN", "SHOW", "REPLICA", "STATUS", "FROM"], src, caps);
    } else {
      KeywordsThenRelation(READONLY_STATEMENTS[i], ["ADMIN", "SHOW", "REPLICA", "DISTRIBUTION", "FROM"], src, caps);
    }
  }

  /** Over all inputs, everything the shipped list extracts from one input is the same. */
  lemma ListUnambiguous(src: Input, a: StatementMatch, b: StatementMatch)
    requires Matches(READONLY_STATEMENTS, src, a) && Matches(READONLY_STATEMENTS, src, b)
    ensures a == b
  {
    var i, c: Captures :| MatchesBy(READONLY_STATEMENTS, i, src, c) && a == ToMatch(READONLY_STATEMENTS[i], c);
    var j, d: Captures :| MatchesBy(READONLY_STATEMENTS, j, src, d) && b == ToMatch(READONLY_STATEMENTS[j], d);
    EntryAnnounced(i, src, c);
    EntryAnnounced(j, src, d);
    SameExtraction(i, src, c, d);
  }

  // ---- the extracted object ----

  lemma FilledCaps(src: Input, p: nat, q: nat, n: nat)
    requires NameFills(src, p, q, n)
    ensures RelationCaps(src, p, q) == [("relation", Parts(NameParts(src, p, n)))]
  {
    assert (q - p + 1) / 2 == n;
  }

  lemma FilledTold(s: ReadonlyStatement, src: Input, p: nat, q: nat)
    requires Filled(src, p, q)
    ensures OneNamed(src, p, q, ToMatch(s, RelationCaps(src, p, q)))
  {
    var n: nat :| NameFills(src, p, q, n);
    FilledCaps(src, p, q, n);
    RelationTold(s, src, p, n);
  }

  lemma WordAgrees(src: Input, p: nat, w: string)
    ensures WordIs(src, p, w) <==> src.WordAt(p) == Some(w)
  {
  }

  lemma DataTold(s: ReadonlyStatement, src: Input)
    requires |src.tokens| == 6 ==> Filled(src, 3, 6)
    ensures if |src.tokens| == 6 then OneNamed(src, 3, 6, ToMatch(s, DataCaps(src)))
            else NoObject(ToMatch(s, DataCaps(src)))
  {
    if |src.tokens| == 6 {
      FilledTold(s, src, 3, 6);
    } else {
      NothingTold(s, DataCaps(src));
    }
  }

  /** A filter by name that ends the tokens, with or without a database in front of it. */
  lemma FilterTold(s: ReadonlyStatement, src: Input, p: nat)
    requires |src.tokens| > 0 && PlainLiteral(src, |src.tokens| - 1).Some?
    requires DatabaseWord(src.WordAt(p)) ==> src.Identifier(p + 1).Some?
    ensures OneLiteral(src, |src.tokens| - 1, p, ToMatch(s, DatabaseCaps(src, p) + NameCaps(src, |src.tokens| - 1)))
  {
    var x := PlainLiteral(src, |src.tokens| - 1).value;
    WordAgrees(src, p, "FROM");
    WordAgrees(src, p, "IN");
    if DatabaseWord(src.WordAt(p)) {
      LiteralInTold(s, src.Identifier(p + 1).value, x);
      IdentifierIs(src, p + 1);
    } else {
      LiteralTold(s, x);
      assert DatabaseCaps(src, p) + NameCaps(src, |src.tokens| - 1) == [("relation_name", Text(x))];
    }
  }

  lemma NoFilterTold(s: ReadonlyStatement, src: Input, p: nat)
    ensures NoObject(ToMatch(s, DatabaseCaps(src, p)))
  {
    NothingTold(s, DatabaseCaps(src, p));
  }

  lemma FilterCapsAre(src: Input, p: nat)
    ensures FilterCaps(src, p)
         == if |src.tokens| >= 2 && src.SymbolAt(|src.tokens| - 2) == Some("=")
            then DatabaseCaps(src, p) + NameCaps(src, |src.tokens| - 1) else DatabaseCaps(src, p)
  {
    assert DbCaps(src, p, |src.tokens|) == DatabaseCaps(src, p);
    assert DatabaseCaps(src, p) + [] == DatabaseCaps(src, p);
  }

  /** The object of an optional filter. */
  lemma OptionalFilterTold(s: ReadonlyStatement, src: Input, p: nat)
    requires FilterFits(src, p)
    ensures if |src.tokens| >= 2 && SymbolIs(src, |src.tokens| - 2, "=")
            then OneLiteral(src, |src.tokens| - 1, p, ToMatch(s, FilterCaps(src, p)))
            else NoObject(ToMatch(s, FilterCaps(src, p)))
  {
    FilterCapsAre(src, p);
    if |src.tokens| >= 2 && src.SymbolAt(|src.tokens| - 2) == Some("=") {
      FilterTold(s, src, p);
    } else {
      NoFilterTold(s, src, p);
    }
  }

  /** Every match of a row extracts what `Told` says of the tokens. */
  lemma RowTold(i: nat, src: Input, caps: Captures)
    requires MatchesBy(READONLY_STATEMENTS, i, src, caps)
    ensures Told(i, src, ToMatch(READONLY_STATEMENTS[i], caps))
  {
    if HasTarget(i) {
      TargetRowTold(i, src, caps);
    } else {
      if READONLY_STATEMENTS[i].target != NoTarget {
        TargetsListed(i);
      }
      ShippedListChecked(i);
      NothingExtracted(READONLY_STATEMENTS[i], src, caps);
    }
  }

  lemma TargetRowTold(i: nat, src: Input, caps: Captures)
    requires MatchesBy(READONLY_STATEMENTS, i, src, caps) && HasTarget(i)
    ensures Told(i, src, ToMatch(READONLY_STATEMENTS[i], caps))
  {
    if i == 1 || i == 15 {
      FilterRowTold(i, src, caps);
    } else if i == 2 {
      PartitionsTold(i, src, caps);
    } else if i == 5 || i == 19 {
      DataOrExplainTold(i, src, caps);
    } else if i == 30 {
      DescribeTold(i, src, caps);
    } else {
      KeywordRowTold(i, src, caps);
    }
  }

  lemma PartitionsTold(i: nat, src: Input, caps: Captures)
    requires MatchesBy(READONLY_STATEMENTS, i, src, caps) && i == 2
    ensures Told(i, src, ToMatch(READONLY_STATEMENTS[i], caps))
  {
    PartitionsCapture(READONLY_STATEMENTS[i], "TEMPORARY", "PARTITIONS", src, caps);
    WordAgrees(src, 1, "TEMPORARY");
    FilledTold(READONLY_STATEMENTS[i], src, if src.WordAt(1) == Some("TEMPORARY") then 4 else 3, |src.tokens|);
  }

  lemma DataOrExplainTold(i: nat, src: Input, caps: Captures)
    requires MatchesBy(READONLY_STATEMENTS, i, src, caps) && (i == 5 || i == 19)
    ensures Told(i, src, ToMatch(READONLY_STATEMENTS[i], caps))
  {
    if i == 5 {
      DataCaptures(READONLY_STATEMENTS[i], src, caps);
      DataTold(READONLY_STATEMENTS[i], src);
    } else {
      ExplainCaptures(READONLY_STATEMENTS[i], src, caps);
      InnerTold(READONLY_STATEMENTS[i], src.tokens[2].startByte, src.tokens[|src.tokens| - 1].endByte);
    }
  }

  lemma DescribeTold(i: nat, src: Input, caps: Captures)
    requires MatchesBy(READONLY_STATEMENTS, i, src, caps) && i == 30
    ensures Told(i, src, ToMatch(READONLY_STATEMENTS[i], caps))
  {
    DescribeCaptures(READONLY_STATEMENTS[i], src, caps);
    FilledTold(READONLY_STATEMENTS[i], src, 1, |src.tokens| - 1);
  }

  lemma FilterRowTold(i: nat, src: Input, caps: Captures)
    requires MatchesBy(READONLY_STATEMENTS, i, src, caps) && (i == 1 || i == 15)
    ensures Told(i, src, ToMatch(READONLY_STATEMENTS[i], caps))
  {
    if i == 1 {
      ViewsCapture(READONLY_STATEMENTS[i], src, caps);
      OptionalFilterTold(READONLY_STATEMENTS[i], src, 3);
    } else {
      AlterCaptures(READONLY_STATEMENTS[i], src, caps);
      WordAgrees(src, 3, "MATERIALIZED");
      OptionalFilterTold(READONLY_STATEMENTS[i], src, AlterDb(src));
    }
  }

  lemma KeywordRowTold(i: nat, src: Input, caps: Captures)
    requires MatchesBy(READONLY_STATEMENTS, i, src, caps) && (i == 0 || i == 3 || i == 16 || i == 17)
    ensures Told(i, src, ToMatch(READONLY_STATEMENTS[i], caps))
  {
    if i == 0 || i == 3 {
      RelationEntries(i, src, caps);
    } else {
      ReplicaEntries(i, src, caps);
    }
    FilledTold(READONLY_STATEMENTS[i], src, if i == 0 then 4 else if i == 3 then 3 else 5, |src.tokens|);
  }

  /** `m` is a match of some entry, meets that entry's target rule and extracts what the tokens name. */
  ghost predicate ShippedMatch(src: Input, m: StatementMatch) {
    && Matches(READONLY_STATEMENTS, src, m)
    && |m.relations| <= 1
    && exists i: nat :: i < |READONLY_STATEMENTS| && m.family == READONLY_STATEMENTS[i].family
                        && RuleMet(READONLY_STATEMENTS[i].target, m) && Told(i, src, m)
  }

  lemma MatchMeetsRule(src: Input, m: StatementMatch)
    requires Matches(READONLY_STATEMENTS, src, m)
    ensures ShippedMatch(src, m)
  {
    var i, caps: Captures :| MatchesBy(READONLY_STATEMENTS, i, src, caps) && m == ToMatch(READONLY_STATEMENTS[i], caps);
    ShippedListChecked(i);
    CheckImpliesExtraction(READONLY_STATEMENTS[i], src, |src.tokens|, caps);
    AtMostOneObject(READONLY_STATEMENTS[i], src, |src.tokens|, caps);
    RowTold(i, src, caps);
  }

  /** On the shipped list None means that nothing matches; ambiguity never causes it. */
  method MatchShipped(src: Input) returns (r: Option<StatementMatch>)
    ensures r.Some? ==> ShippedMatch(src, r.value)
    ensures forall m :: Matches(READONLY_STATEMENTS, src, m) <==> r == Some(m)
  {
    r := MatchStatement(READONLY_STATEMENTS, src);
    if r.Some? {
      MatchMeetsRule(src, r.value);
    } else {
      NeverAmbiguous(src);
    }
  }

  lemma NeverAmbiguous(src: Input)
    requires Disputed(READONLY_STATEMENTS, src)
    ensures forall m :: !Matches(READONLY_STATEMENTS, src, m)
  {
    forall a, b | Matches(READONLY_STATEMENTS, src, a) && Matches(READONLY_STATEMENTS, src, b)
      ensures a == b
    {
      ListUnambiguous(src, a, b);
    }
    NoRivalsNoMatch(READONLY_STATEMENTS, src);
  }

  /** Every match has a different rival. */
  ghost predicate Disputed(table: seq<ReadonlyStatement>, src: Input) {
    forall m :: Matches(table, src, m) ==> exists other :: Matches(table, src, other) && other != m
  }

  lemma NoRivalsNoMatch(table: seq<ReadonlyStatement>, src: Input)
    requires Disputed(table, src)
    requires forall a, b :: Matches(table, src, a) && Matches(table, src, b) ==> a == b
    ensures forall m :: !Matches(table, src, m)
  {
  }
}
