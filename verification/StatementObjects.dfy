/**
 What a match of each list row extracts, said over the tokens themselves: which identifiers name the
 object, and which bytes are the inner query.
 */
module StatementObjects {
  import opened Wrappers
  import Tokens = SqlTokens
  import opened ReadonlyStatements
  import opened StatementTargets

  // ---- tokens ----

  /** Token `p` is this word, whatever its case. */
  predicate WordIs(src: Input, p: nat, w: string) {
    p < |src.tokens| && src.tokens[p].kind == Tokens.Word && src.upper(src.tokens[p].text) == w
  }

  predicate SymbolIs(src: Input, p: nat, c: string) {
    p < |src.tokens| && src.tokens[p].kind == Tokens.Symbol && src.tokens[p].text == c
  }

  /** A name as it is written between backticks. */
  function Doubled(name: string): string {
    if name == "" then "" else (if name[0] == '`' then "``" else [name[0]]) + Doubled(name[1..])
  }

  /** Token `p` is the identifier `x`: a word stands for itself, and between backticks stands the name with
      its own backticks doubled. */
  ghost predicate Identifies(src: Input, p: nat, x: string) {
    && p < |src.tokens|
    && var t := src.tokens[p];
       || (t.kind == Tokens.Word && x == t.text)
       || (t.kind == Tokens.QuotedIdentifier && |t.text| >= 2 && x != ""
           && forall name :: t.text[1..|t.text| - 1] == Doubled(name) ==> x == name)
  }

  /** Token `p` is a string literal with nothing to unescape, and `x` stands between its quotes. */
  predicate LiteralIs(src: Input, p: nat, x: string) {
    && p < |src.tokens| && src.tokens[p].kind == Tokens.StringLiteral
    && var text := src.tokens[p].text;
       |text| >= 2 && x == text[1..|text| - 1] && x != "" && '\\' !in x && text[0] !in x
  }

  lemma {:induction false} DoubledSingle(name: string)
    ensures SingleBackticks(Doubled(name)) == name
  {
    if name != "" {
      var rest := Doubled(name[1..]);
      DoubledSingle(name[1..]);
      if name[0] == '`' {
        assert ("``" + rest)[2..] == rest;
      } else {
        assert ([name[0]] + rest)[1..] == rest;
      }
    }
  }

  lemma IdentifierIs(src: Input, p: nat)
    requires src.Identifier(p).Some?
    ensures Identifies(src, p, src.Identifier(p).value)
  {
    var t := src.tokens[p];
    if t.kind != Tokens.Word {
      forall name | t.text[1..|t.text| - 1] == Doubled(name)
        ensures src.Identifier(p).value == name
      {
        DoubledSingle(name);
      }
    }
  }

  /** All digits, and at least one. */
  predicate Number(text: string) { |text| > 0 && forall i :: 0 <= i < |text| ==> text[i] in "0123456789" }

  lemma DigitsAgree(text: string)
    ensures Digits(text) <==> Number(text)
  {
    var all := "0123456789";
    assert all[0] == '0' && all[1] == '1' && all[2] == '2' && all[3] == '3' && all[4] == '4';
    assert all[5] == '5' && all[6] == '6' && all[7] == '7' && all[8] == '8' && all[9] == '9';
    forall c: char
      ensures c in all <==> '0' <= c <= '9'
    {
      if '0' <= c <= '9' {
        assert all[c as int - '0' as int] == c;
      }
    }
  }

  predicate LiteralCaptured(e: Element, x: string, caps: Captures)
    requires e.Str?
  {
    caps == if e.captured.Some? then [(e.captured.value, Text(x))] else []
  }

  /** What the elements that match single tokens and words take. */
  lemma LeavesOverTokens(e: Element, src: Input, p: nat, q: nat, caps: Captures)
    requires Derives(e, src, p, q, caps)
    ensures e.Kw? ==> q == p + |e.words| && caps == []
    ensures e.Kw? ==> forall i :: 0 <= i < |e.words| ==> WordIs(src, p + i, e.words[i])
    ensures e.Sym? ==> q == p + 1 && caps == [] && SymbolIs(src, p, e.symbol)
    ensures e.Str? ==> q == p + 1 && exists x :: LiteralIs(src, p, x) && LiteralCaptured(e, x, caps)
    ensures e.Int? ==> q == p + 1 && caps == [] && exists w :: WordIs(src, p, w) && Number(w)
    ensures e.Column? ==> q == p + 1 && caps == [] && exists x :: Identifies(src, p, x) && src.upper(x) in e.allowed
    ensures e.Rest? ==> p < q == |src.tokens|
                          && caps == [(e.capture, Range(src.tokens[p].startByte, src.tokens[q - 1].endByte))]
  {
    match e
    case Str(_) =>
      assert LiteralIs(src, p, PlainLiteral(src, p).value) && LiteralCaptured(e, PlainLiteral(src, p).value, caps);
    case Int =>
      DigitsAgree(src.WordAt(p).value);
      assert WordIs(src, p, src.WordAt(p).value);
    case Column(_) => IdentifierIs(src, p);
    case _ =>
  }

  // ---- objects ----

  /** The tokens from `p` to `q` name `r`: the last identifier is its name, the one before it the database, the
      one before that the catalog, and between two identifiers stands a dot. */
  ghost predicate NamedBy(src: Input, p: nat, q: nat, r: RelationRef) {
    || (q == p + 1 && Identifies(src, p, r.name) && r.database == "" && r.catalog == "")
    || (q == p + 3 && Identifies(src, p + 2, r.name) && SymbolIs(src, p + 1, ".") && Identifies(src, p, r.database)
        && r.catalog == "")
    || (q == p + 5 && Identifies(src, p + 4, r.name) && SymbolIs(src, p + 3, ".") && Identifies(src, p + 2, r.database)
        && SymbolIs(src, p + 1, ".") && Identifies(src, p, r.catalog))
  }

  /** One object, named by these tokens. */
  ghost predicate OneNamed(src: Input, p: nat, q: nat, m: StatementMatch) {
    |m.relations| == 1 && NamedBy(src, p, q, m.relations[0]) && m.innerQuery == None
  }

  /** One object, named by the literal at `at`, in the database behind FROM or IN at `p`, if there is one. */
  ghost predicate OneLiteral(src: Input, at: nat, p: nat, m: StatementMatch) {
    && |m.relations| == 1 && LiteralIs(src, at, m.relations[0].name) && m.relations[0].catalog == ""
    && (if WordIs(src, p, "FROM") || WordIs(src, p, "IN") then Identifies(src, p + 1, m.relations[0].database)
        else m.relations[0].database == "")
    && m.innerQuery == None
  }

  predicate NoObject(m: StatementMatch) { m.relations == [] && m.innerQuery == None }

  /** What a match of row `i` extracts from all tokens. */
  ghost predicate Told(i: nat, src: Input, m: StatementMatch) {
    var q := |src.tokens|;
    if i == 0 then OneNamed(src, 4, q, m)
    else if i == 2 then OneNamed(src, if WordIs(src, 1, "TEMPORARY") then 4 else 3, q, m)
    else if i == 3 then OneNamed(src, 3, q, m)
    else if i == 16 || i == 17 then OneNamed(src, 5, q, m)
    else if i == 30 then q >= 1 && OneNamed(src, 1, q - 1, m)
    else if i == 5 then if q == 6 then OneNamed(src, 3, 6, m) else NoObject(m)
    else if i == 1 then if q >= 2 && SymbolIs(src, q - 2, "=") then OneLiteral(src, q - 1, 3, m) else NoObject(m)
    else if i == 15 then
      if q >= 2 && SymbolIs(src, q - 2, "=")
      then OneLiteral(src, q - 1, if WordIs(src, 3, "MATERIALIZED") then 5 else 4, m) else NoObject(m)
    else if i == 19 then
      q > 2 && m.relations == [] && m.innerQuery == Some((src.tokens[2].startByte, src.tokens[q - 1].endByte))
    else NoObject(m)
  }

  // ---- from the captures ----

  /** A name of one to three parts fills the tokens from `p` to `q`. */
  predicate NameFills(src: Input, p: nat, q: nat, n: nat) {
    1 <= n <= 3 && q == p + 2 * n - 1 && DottedName(src, p, n)
  }

  lemma PartsOf(src: Input, p: nat, n: nat)
    requires 1 <= n <= 3 && DottedName(src, p, n)
    ensures NamedBy(src, p, p + 2 * n - 1, RelationOf(NameParts(src, p, n)))
  {
    if n == 1 {
      OnePartOf(src, p);
    } else if n == 2 {
      TwoPartsOf(src, p);
    } else {
      ThreePartsOf(src, p);
    }
  }

  lemma OnePartOf(src: Input, p: nat)
    requires DottedName(src, p, 1)
    ensures NameParts(src, p, 1) == [src.Identifier(p).value]
    ensures NamedBy(src, p, p + 1, RelationOf(NameParts(src, p, 1)))
  {
    assert NameParts(src, p, 0) == [];
    IdentifierIs(src, p);
  }

  lemma TwoPartsOf(src: Input, p: nat)
    requires DottedName(src, p, 2) && DottedName(src, p, 1)
    ensures NameParts(src, p, 2) == [src.Identifier(p).value, src.Identifier(p + 2).value]
    ensures NamedBy(src, p, p + 3, RelationOf(NameParts(src, p, 2)))
  {
    OnePartOf(src, p);
    assert NameParts(src, p, 2) == NameParts(src, p, 1) + [src.Identifier(p + 2).value];
    IdentifierIs(src, p);
    IdentifierIs(src, p + 2);
  }

  lemma ThreePartsOf(src: Input, p: nat)
    requires DottedName(src, p, 3)
    ensures NamedBy(src, p, p + 5, RelationOf(NameParts(src, p, 3)))
  {
    assert DottedName(src, p, 2) && DottedName(src, p, 1);
    TwoPartsOf(src, p);
    assert NameParts(src, p, 3) == NameParts(src, p, 2) + [src.Identifier(p + 4).value];
    IdentifierIs(src, p);
    IdentifierIs(src, p + 2);
    IdentifierIs(src, p + 4);
  }

  lemma CapturedOne(name: string, v: Value, n: string)
    ensures Captured([(name, v)], n) == if name == n then Some(v) else None
  {
    var caps: Captures := [(name, v)];
    assert caps[..|caps| - 1] == [] && Captured(caps[..|caps| - 1], n).None?;
    assert caps[|caps| - 1] == (name, v);
  }

  lemma CapturedTwo(a: string, v: Value, b: string, w: Value, n: string)
    ensures Captured([(a, v)] + [(b, w)], n) == if b == n then Some(w) else if a == n then Some(v) else None
  {
    var caps: Captures := [(a, v)] + [(b, w)];
    assert caps[..|caps| - 1] == [(a, v)] && caps[|caps| - 1] == (b, w);
    CapturedOne(a, v, n);
  }

  /** The names of the captures that count are different. */
  lemma DifferentNames()
    ensures "relation" != "relation_name" && "relation" != "database" && "relation" != "inner_query"
    ensures "relation_name" != "database" && "relation_name" != "inner_query" && "database" != "inner_query"
  {
    assert |"relation"| == 8 && |"relation_name"| == 13 && |"database"| == 8 && |"inner_query"| == 11;
    assert "relation"[0] == 'r' && "database"[0] == 'd';
  }

  lemma RelationTold(s: ReadonlyStatement, src: Input, p: nat, n: nat)
    requires n > 0 && NameFills(src, p, p + 2 * n - 1, n)
    ensures OneNamed(src, p, p + 2 * n - 1, ToMatch(s, [("relation", Parts(NameParts(src, p, n)))]))
  {
    var v := Parts(NameParts(src, p, n));
    DifferentNames();
    CapturedOne("relation", v, "relation");
    CapturedOne("relation", v, "relation_name");
    CapturedOne("relation", v, "inner_query");
    PartsOf(src, p, n);
  }

  lemma NothingTold(s: ReadonlyStatement, caps: Captures)
    requires caps == [] || exists v :: caps == [("database", v)]
    ensures NoObject(ToMatch(s, caps))
  {
    DifferentNames();
    if v :| caps == [("database", v)] {
      CapturedOne("database", v, "relation");
      CapturedOne("database", v, "relation_name");
      CapturedOne("database", v, "inner_query");
    }
  }

  lemma InnerTold(s: ReadonlyStatement, a: nat, b: nat)
    ensures ToMatch(s, [("inner_query", Range(a, b))]).relations == []
    ensures ToMatch(s, [("inner_query", Range(a, b))]).innerQuery == Some((a, b))
  {
    DifferentNames();
    CapturedOne("inner_query", Range(a, b), "relation");
    CapturedOne("inner_query", Range(a, b), "relation_name");
    CapturedOne("inner_query", Range(a, b), "inner_query");
  }

  /** The object that a literal names, without and with a database. */
  lemma LiteralTold(s: ReadonlyStatement, x: string)
    ensures ToMatch(s, [("relation_name", Text(x))]).relations == [RelationRef("", "", x)]
    ensures ToMatch(s, [("relation_name", Text(x))]).innerQuery == None
  {
    DifferentNames();
    CapturedOne("relation_name", Text(x), "relation");
    CapturedOne("relation_name", Text(x), "relation_name");
    CapturedOne("relation_name", Text(x), "database");
    CapturedOne("relation_name", Text(x), "inner_query");
  }

  lemma LiteralInTold(s: ReadonlyStatement, d: string, x: string)
    ensures ToMatch(s, [("database", Parts([d]))] + [("relation_name", Text(x))]).relations == [RelationRef("", d, x)]
    ensures ToMatch(s, [("database", Parts([d]))] + [("relation_name", Text(x))]).innerQuery == None
  {
    DifferentNames();
    CapturedTwo("database", Parts([d]), "relation_name", Text(x), "relation");
    CapturedTwo("database", Parts([d]), "relation_name", Text(x), "relation_name");
    CapturedTwo("database", Parts([d]), "relation_name", Text(x), "database");
    CapturedTwo("database", Parts([d]), "relation_name", Text(x), "inner_query");
  }
}
