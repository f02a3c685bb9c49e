/**
 The guard's single decisions in their own terms: which node is harmless, which object a name stands for,
 which shape of statement is proved over which part of its tree.
 */
module SqlGuardMeaning {
  import opened Wrappers
  import opened SqlTree
  import opened SqlGuard

  // ---- names ----

  /** No catalog, or the internal one in any case. */
  predicate HomeCatalog(w: World, catalog: string) { catalog != "" ==> w.u.lower(catalog) == "default_catalog" }

  /** The database, or the default one where none is given, and the name, both in lower case. */
  predicate StandsFor(w: World, policy: ReadonlyPolicy, database: string, name: string, x: QualifiedRelation) {
    && name != "" && (database == "" ==> policy.defaultDatabase != "")
    && x.name == w.u.lower(name)
    && x.database == w.u.lower(if database == "" then policy.defaultDatabase else database)
  }

  lemma ResolveIff(w: World, policy: ReadonlyPolicy, catalog: string, database: string, name: string,
                   x: QualifiedRelation)
    ensures Resolve(w, policy, catalog, database, name) == Ok(x)
            <==> HomeCatalog(w, catalog) && StandsFor(w, policy, database, name, x)
    ensures Resolve(w, policy, catalog, database, name) == Err(Reject(ExternalCatalog)) <==> !HomeCatalog(w, catalog)
    ensures Resolve(w, policy, catalog, database, name).Err? && HomeCatalog(w, catalog) ==>
              Resolve(w, policy, catalog, database, name) == Err(InvalidName)
  {
  }

  /** The object that a table node reads. */
  predicate TableReads(w: World, policy: ReadonlyPolicy, t: Tree, x: QualifiedRelation) {
    && t.shape.Table?
    && (t.shape.catalog.Some? ==> HomeCatalog(w, t.shape.catalog.value))
    && StandsFor(w, policy, if t.shape.db.Some? then t.shape.db.value else "", t.shape.name, x)
  }

  lemma ObjectIff(w: World, policy: ReadonlyPolicy, t: Tree, x: QualifiedRelation)
    requires t.shape.Table?
    ensures ObjectOf(w, policy, t) == Ok(x) <==> TableReads(w, policy, t, x)
  {
    ResolveIff(w, policy, TextOf(t.shape.catalog), TextOf(t.shape.db), t.shape.name, x);
  }

  // ---- nodes ----

  /** The node writes nothing, calls no table function and no qualified function, and points to no other
      catalog. */
  predicate Harmless(w: World, t: Tree) {
    && !t.write && !t.shape.TableFunction?
    && (t.shape.Lateral? ==> t.shape.overSubquery)
    && (t.shape.Dot? ==> !t.shape.intoFunction)
    && (t.shape.Column? ==> HomeCatalog(w, t.shape.columnCatalog))
    && (t.shape.Table? ==> t.shape.plain)
  }

  lemma RefusalIff(w: World, t: Tree)
    ensures Refusal(w, t) == None <==> Harmless(w, t)
    ensures t.write ==> Refusal(w, t) == Some(Reject(NotReadonly))
    ensures !t.write && (t.shape.TableFunction? || t.shape.Lateral? || t.shape.Table?) && !Harmless(w, t) ==>
              Refusal(w, t) == Some(Reject(TableFunctionUsed))
    ensures !t.write && t.shape.Dot? && !Harmless(w, t) ==> Refusal(w, t) == Some(Reject(QualifiedFunction))
    ensures !t.write && t.shape.Column? && !Harmless(w, t) ==> Refusal(w, t) == Some(Reject(ExternalCatalog))
  {
  }

  // ---- statements ----

  predicate Listing(kind: string) {
    || kind == "TABLES" || kind == "TABLE STATUS" || kind == "CREATE DATABASE" || kind == "PROCESSLIST"
    || kind == "VARIABLES" || kind == "STATUS" || kind == "GRANTS" || kind == "ENGINES" || kind == "CHARSET"
    || kind == "CHARACTER SET" || kind == "COLLATION" || kind == "PLUGINS" || kind == "WARNINGS"
  }

  predicate Reading(kind: string) {
    kind == "COLUMNS" || kind == "INDEX" || kind == "CREATE TABLE" || kind == "CREATE VIEW"
  }

  /** The kinds of SHOW that only list, and those that read an object. */
  lemma KindsAre(kind: string)
    ensures kind in SHOW_LISTINGS <==> Listing(kind)
    ensures kind in SHOW_RELATION_READS <==> Reading(kind)
  {
  }

  /** A SHOW that is proved: a listing, the databases of the internal catalog, or one that reads the object it
      names. */
  ghost predicate ProvableShow(w: World, policy: ReadonlyPolicy, t: Tree) {
    && t.shape.Show?
    && var kind := w.u.upper(t.shape.name);
       || Listing(kind)
       || (kind == "DATABASES" && (t.shape.db.Some? ==> HomeCatalog(w, t.shape.db.value)))
       || (Reading(kind) && exists x: QualifiedRelation :: ShowReads(w, policy, t, x))
  }

  /** What a SHOW reads beyond its tree: the one object it names, if it is of a reading kind. */
  predicate ShowReads(w: World, policy: ReadonlyPolicy, t: Tree, x: QualifiedRelation) {
    && t.shape.Show? && t.shape.target.Some? && Reading(w.u.upper(t.shape.name))
    && StandsFor(w, policy, if t.shape.db.Some? then t.shape.db.value else "", t.shape.target.value, x)
  }

  /** The name of the statement's family. */
  predicate FamilyOfShow(w: World, t: Tree, family: string) {
    && t.shape.Show?
    && var kind := w.u.lower(w.u.upper(t.shape.name));
       |family| == 5 + |kind| && family[..5] == "show."
       && forall i :: 0 <= i < |kind| ==> family[5 + i] == if kind[i] == ' ' then '_' else kind[i]
  }

  /** The statement is of a shape that is proved over its part at `base`, and belongs to the family. A query and
      a SHOW are walked as a whole; so is the description of a table, plainly asked for; of an EXPLAIN of a query,
      without a style or with ANALYZE, only the query is. */
  ghost predicate ProvableAt(w: World, policy: ReadonlyPolicy, t: Tree, keyword: string, base: Path, family: string) {
    match t.shape
    case Query => base == [] && family == "query"
    case Show(_, _, _) => base == [] && ProvableShow(w, policy, t) && FamilyOfShow(w, t, family)
    case Describe(inner, style, extras) =>
      && inner.Some? && inner.value < |t.children|
      && var child := t.children[inner.value];
         || (child.shape.Table? && (keyword == "DESC" || keyword == "DESCRIBE") && (style.Some? ==> style.value == "")
             && !extras && base == [] && family == "describe")
         || (child.shape.Query? && keyword == "EXPLAIN" && !child.write && base == [inner.value]
             && ((style.None? && family == "explain")
                 || (style.Some? && w.u.upper(style.value) == "ANALYZE" && family == "explain.analyze")))
    case _ => false
  }

  lemma ShowFamily(w: World, t: Tree)
    requires t.shape.Show?
    ensures FamilyOfShow(w, t, "show." + Underscored(w.u.lower(w.u.upper(t.shape.name))))
  {
    var kind := w.u.lower(w.u.upper(t.shape.name));
    var family := "show." + Underscored(kind);
    assert |family| == 5 + |kind| && family[..5] == "show.";
    assert forall i :: 0 <= i < |kind| ==> family[5 + i] == Underscored(kind)[i];
  }

  /** The tree's shape decides where the proof walks. */
  lemma RouteIff(w: World, policy: ReadonlyPolicy, t: Tree, keyword: string, base: Path, family: string)
    requires !t.shape.Show?
    ensures RouteOf(w, t, keyword) == Walk(base, family) <==> ProvableAt(w, policy, t, keyword, base, family)
  {
  }

  lemma KindsApart()
    ensures "DATABASES" !in SHOW_LISTINGS && "DATABASES" !in SHOW_RELATION_READS
    ensures SHOW_LISTINGS * SHOW_RELATION_READS == {}
  {
  }

  lemma ShowIff(w: World, policy: ReadonlyPolicy, t: Tree, objects: seq<QualifiedRelation>)
    requires t.shape.Show?
    ensures ShowOutcome(w, policy, t, objects).Ok? && ShowOutcome(w, policy, t, objects).value.Some?
            <==> ProvableShow(w, policy, t)
    ensures ShowOutcome(w, policy, t, objects).Ok? && ShowOutcome(w, policy, t, objects).value.Some? ==>
              var (family, relations) := ShowOutcome(w, policy, t, objects).value.value;
              FamilyOfShow(w, t, family)
              && forall x :: x in relations <==> x in objects || ShowReads(w, policy, t, x)
  {
    KindsApart();
    ShowFamily(w, t);
    var kind := w.u.upper(t.shape.name);
    KindsAre(kind);
    if t.shape.target.Some? {
      var resolved := Resolve(w, policy, "", TextOf(t.shape.db), t.shape.target.value);
      forall x
        ensures ShowReads(w, policy, t, x) <==> kind in SHOW_RELATION_READS && resolved == Ok(x)
      {
        ResolveIff(w, policy, "", TextOf(t.shape.db), t.shape.target.value, x);
      }
      if resolved.Ok? {
        assert kind in SHOW_RELATION_READS ==> ShowReads(w, policy, t, resolved.value);
      }
    }
  }

  // ---- parsing ----

  /** No statement counts: all are empty or a lone `;`. */
  predicate NoneCounts(statements: seq<Option<Tree>>) {
    forall k :: 0 <= k < |statements| && statements[k].Some? ==> statements[k].value.semicolon
  }

  predicate OnlyAt(statements: seq<Option<Tree>>, t: Tree, i: nat) {
    && i < |statements| && statements[i] == Some(t) && !t.semicolon
    && NoneCounts(statements[..i]) && NoneCounts(statements[i + 1..])
  }

  /** Exactly one statement of the list counts. */
  ghost predicate OnlyStatement(statements: seq<Option<Tree>>, t: Tree) { exists i: nat :: OnlyAt(statements, t, i) }

  lemma {:induction false} KeptIff(statements: seq<Option<Tree>>, t: Tree)
    ensures KeptStatements(statements) == [] <==> NoneCounts(statements)
    ensures KeptStatements(statements) == [t] <==> OnlyStatement(statements, t)
  {
    if statements != [] {
      var head, rest := statements[0], statements[1..];
      KeptIff(rest, t);
      assert [head] + rest == statements;
      NoneHead(head, rest);
      if head.Some? && !head.value.semicolon {
        CountingHead(head, rest, t);
        var kept := [head.value] + KeptStatements(rest);
        assert kept[0] == head.value && kept[1..] == KeptStatements(rest) && [t][1..] == [];
        assert kept == [t] ==> KeptStatements(rest) == [];
      } else {
        QuietHead(head, rest, t);
        assert [] + KeptStatements(rest) == KeptStatements(rest);
      }
    }
  }

  lemma NoneHead(head: Option<Tree>, rest: seq<Option<Tree>>)
    ensures NoneCounts([head] + rest) <==> (head.Some? ==> head.value.semicolon) && NoneCounts(rest)
  {
    var all := [head] + rest;
    assert all[0] == head && forall k :: 1 <= k < |all| ==> all[k] == rest[k - 1];
    if NoneCounts(all) {
      forall k | 0 <= k < |rest| && rest[k].Some?
        ensures rest[k].value.semicolon
      {
        assert all[k + 1].Some?;
      }
    }
  }

  lemma CountingHead(head: Option<Tree>, rest: seq<Option<Tree>>, t: Tree)
    requires head.Some? && !head.value.semicolon
    ensures OnlyStatement([head] + rest, t) <==> head.value == t && NoneCounts(rest)
  {
    var all := [head] + rest;
    assert all[0] == head && all[..0] == [] && all[0 + 1..] == rest;
    if head.value == t && NoneCounts(rest) {
      assert OnlyAt(all, t, 0);
    }
    forall i: nat | 0 < i < |all|
      ensures !NoneCounts(all[..i])
    {
      assert all[..i] == [head] + all[1..i];
      NoneHead(head, all[1..i]);
    }
  }

  lemma QuietHead(head: Option<Tree>, rest: seq<Option<Tree>>, t: Tree)
    requires head.Some? ==> head.value.semicolon
    ensures OnlyStatement([head] + rest, t) <==> OnlyStatement(rest, t)
  {
    var all := [head] + rest;
    if i: nat :| OnlyAt(rest, t, i) {
      assert all[..i + 1] == [head] + rest[..i] && all[i + 1 + 1..] == rest[i + 1..] && all[i + 1] == rest[i];
      NoneHead(head, rest[..i]);
      assert OnlyAt(all, t, i + 1);
    }
    if i: nat :| OnlyAt(all, t, i) {
      assert i > 0 && all[i] == rest[i - 1];
      assert all[..i] == [head] + rest[..i - 1] && all[i + 1..] == rest[i - 1 + 1..];
      NoneHead(head, rest[..i - 1]);
      assert OnlyAt(rest, t, i - 1);
    }
  }

  /** A text is parsed into a statement exactly if the parser knows it and finds one statement that counts. */
  lemma ParsedIff(w: World, text: string, t: Tree)
    ensures ParseStatement(w, text) == Ok(Some(t))
            <==> w.parse(text).Statements? && OnlyStatement(w.parse(text).statements, t)
    ensures ParseStatement(w, text) == Ok(None) <==> w.parse(text).SyntaxError?
    ensures ParseStatement(w, text).Err? ==>
              ParseStatement(w, text).error
              == if w.parse(text).ParserFailure? then Reject(Unparsable) else Reject(MultipleStatements)
  {
    if w.parse(text).Statements? {
      KeptIff(w.parse(text).statements, t);
    }
  }
}
