/**
 Which texts are accepted, which are not, and what the others are refused for: the whole decision said over the
 parse, the shapes of the tree and the statement list.
 */
module SqlGuardVerdict {
  import opened Wrappers
  import opened Utf8
  import Tokens = SqlTokens
  import List = StatementList
  import Extraction = StatementListExtraction
  import opened StatementTargets
  import opened SqlTree
  import opened SqlGuard
  import opened SqlGuardMeaning
  import opened SqlGuardTheorems

  // ---- the statement list ----

  ghost predicate Resolvable(w: World, policy: ReadonlyPolicy, r: RelationRef) {
    HomeCatalog(w, r.catalog) && exists x :: StandsFor(w, policy, r.database, r.name, x)
  }

  ghost predicate UnrefusedQuery(w: World, policy: ReadonlyPolicy, text: string, t: Tree) {
    ParsedAs(w, text, t) && t.shape.Query? && forall p: Path :: !Refused(w, policy, t, p)
  }

  function InnerText(scan: Tokens.TokenScan, m: StatementMatch): string
    requires m.innerQuery.Some?
  {
    TextOf(Tokens.TextBetween(scan.raw, m.innerQuery.value.0, m.innerQuery.value.1))
  }

  /** The inner query is one in which no node is refused, or each object can be named. */
  ghost predicate ListProvable(w: World, policy: ReadonlyPolicy, scan: Tokens.TokenScan, m: StatementMatch) {
    if m.innerQuery.Some? then exists t: Tree :: UnrefusedQuery(w, policy, InnerText(scan, m), t)
    else forall i :: 0 <= i < |m.relations| ==> Resolvable(w, policy, m.relations[i])
  }

  lemma {:induction false} ResolveAllIff(w: World, policy: ReadonlyPolicy, refs: seq<RelationRef>)
    ensures ResolveAll(w, policy, refs).Ok? <==> forall i :: 0 <= i < |refs| ==> Resolvable(w, policy, refs[i])
  {
    if refs != [] {
      ResolvableIff(w, policy, refs[0]);
      ResolveAllIff(w, policy, refs[1..]);
      assert forall i :: 1 <= i < |refs| ==> refs[i] == refs[1..][i - 1];
    }
  }

  lemma ResolvableIff(w: World, policy: ReadonlyPolicy, r: RelationRef)
    ensures Resolve(w, policy, r.catalog, r.database, r.name).Ok? <==> Resolvable(w, policy, r)
  {
    forall x
      ensures Resolve(w, policy, r.catalog, r.database, r.name) == Ok(x)
              <==> HomeCatalog(w, r.catalog) && StandsFor(w, policy, r.database, r.name, x)
    {
      ResolveIff(w, policy, r.catalog, r.database, r.name, x);
    }
  }

  lemma UnrefusedIff(w: World, policy: ReadonlyPolicy, t: Tree)
    requires Lawful(w)
    ensures (forall p: Path :: !Refused(w, policy, t, p)) <==> Collected(w, policy, t, []).Ok?
    ensures t.write ==> Refused(w, policy, t, [])
  {
    CollectedRefuses(w, policy, t, []);
    RefusedIff(w, policy, t, []);
    if p: Path :| Refused(w, policy, t, p) {
      assert [] <= p;
    }
  }

  lemma InnerProofIff(w: World, policy: ReadonlyPolicy, scan: Tokens.TokenScan, m: StatementMatch)
    requires Lawful(w) && m.innerQuery.Some?
    ensures ListProof(w, policy, scan, m).Ok? <==> ListProvable(w, policy, scan, m)
  {
    var text := InnerText(scan, m);
    if t: Tree :| UnrefusedQuery(w, policy, text, t) {
      ParsedIff(w, text, t);
      UnrefusedIff(w, policy, t);
    } else {
      var parsed := ParseStatement(w, text);
      if parsed.Ok? && parsed.value.Some? {
        ParsedIff(w, text, parsed.value.value);
        UnrefusedIff(w, policy, parsed.value.value);
        assert !UnrefusedQuery(w, policy, text, parsed.value.value);
      }
    }
  }

  /** A match is proved exactly if its objects can be named, or its inner query has no refused node. */
  lemma ListProofIff(w: World, policy: ReadonlyPolicy, scan: Tokens.TokenScan, m: StatementMatch)
    requires Lawful(w)
    ensures ListProof(w, policy, scan, m).Ok? <==> ListProvable(w, policy, scan, m)
  {
    if m.innerQuery.Some? {
      InnerProofIff(w, policy, scan, m);
    } else {
      ResolveAllIff(w, policy, m.relations);
    }
  }

  // ---- trees that are left to the list ----

  /** An EXPLAIN of something that writes. */
  predicate ExplainsWrite(t: Tree, keyword: string) {
    && t.shape.Describe? && keyword == "EXPLAIN"
    && t.shape.inner.Some? && t.shape.inner.value < |t.children| && t.children[t.shape.inner.value].write
  }

  /** The tree route neither proves nor refuses the statement. */
  ghost predicate LeftToList(w: World, policy: ReadonlyPolicy, t: Tree, keyword: string) {
    match t.shape
    case Query => false
    case Show(name, _, target) =>
      && (forall p: Path :: !Refused(w, policy, t, p))
      && !Listing(w.u.upper(name)) && w.u.upper(name) != "DATABASES" && (Reading(w.u.upper(name)) ==> target.None?)
    case Describe(_, _, _) =>
      !ExplainsWrite(t, keyword) && forall base: Path, family :: !ProvableAt(w, policy, t, keyword, base, family)
    case _ => true
  }

  lemma ShowLeft(w: World, policy: ReadonlyPolicy, t: Tree, keyword: string)
    requires Lawful(w) && t.shape.Show?
    ensures AstProof(w, policy, t, keyword) == Ok(None) <==> LeftToList(w, policy, t, keyword)
  {
    KindsApart();
    KindsAre(w.u.upper(t.shape.name));
    CollectedRefuses(w, policy, t, []);
  }

  lemma DescribeLeft(w: World, policy: ReadonlyPolicy, t: Tree, keyword: string)
    requires Lawful(w) && t.shape.Describe?
    ensures AstProof(w, policy, t, keyword) == Ok(None) <==> LeftToList(w, policy, t, keyword)
  {
    var route := RouteOf(w, t, keyword);
    RouteValid(w, t, keyword);
    if route.Walk? {
      RouteIff(w, policy, t, keyword, route.base, route.family);
    } else {
      forall base: Path, family
        ensures !ProvableAt(w, policy, t, keyword, base, family)
      {
        RouteIff(w, policy, t, keyword, base, family);
      }
    }
  }

  lemma LeftIff(w: World, policy: ReadonlyPolicy, t: Tree, keyword: string)
    requires Lawful(w)
    ensures AstProof(w, policy, t, keyword) == Ok(None) <==> LeftToList(w, policy, t, keyword)
  {
    if t.shape.Show? {
      ShowLeft(w, policy, t, keyword);
    } else if t.shape.Describe? {
      DescribeLeft(w, policy, t, keyword);
    }
  }

  // ---- the decision ----

  ghost predicate TreeAccepts(w: World, policy: ReadonlyPolicy, scan: Tokens.TokenScan, root: Tree) {
    && ParsedAs(w, StatementText(scan), root)
    && exists base: Path, family :: ProvableOver(w, policy, root, Keyword(w, scan), base, family)
  }

  /** The parser does not know the text, or its tree is left to the list. */
  ghost predicate GoesToList(w: World, policy: ReadonlyPolicy, scan: Tokens.TokenScan) {
    || w.parse(StatementText(scan)).SyntaxError?
    || exists root: Tree :: TreeLeft(w, policy, scan, root)
  }

  ghost predicate TreeLeft(w: World, policy: ReadonlyPolicy, scan: Tokens.TokenScan, root: Tree) {
    ParsedAs(w, StatementText(scan), root) && LeftToList(w, policy, root, Keyword(w, scan))
  }

  ghost predicate ListAccepts(w: World, policy: ReadonlyPolicy, scan: Tokens.TokenScan, m: StatementMatch) {
    List.Matches(List.READONLY_STATEMENTS, InputOf(w, scan), m) && ListProvable(w, policy, scan, m)
  }

  /** By its tree, or by the list where the tree is left to it. */
  ghost predicate Provable(w: World, policy: ReadonlyPolicy, scan: Tokens.TokenScan) {
    || (exists root: Tree :: TreeAccepts(w, policy, scan, root))
    || (GoesToList(w, policy, scan) && exists m :: ListAccepts(w, policy, scan, m))
  }

  /** A text has one parse. */
  lemma ParsedOnce(w: World, text: string, a: Tree)
    requires ParsedAs(w, text, a)
    ensures ParseStatement(w, text) == Ok(Some(a)) && !w.parse(text).SyntaxError?
    ensures forall b: Tree :: ParsedAs(w, text, b) ==> b == a
  {
    ParsedIff(w, text, a);
    forall b: Tree | ParsedAs(w, text, b)
      ensures b == a
    {
      ParsedIff(w, text, b);
    }
  }

  lemma ListDecides(w: World, policy: ReadonlyPolicy, scan: Tokens.TokenScan, root: Option<Tree>)
    requires Lawful(w)
    ensures ListEstablished(w, policy, scan, root).Ok? <==> exists m :: ListAccepts(w, policy, scan, m)
  {
    var found := ListMatch(InputOf(w, scan));
    if found.Some? {
      ListProofIff(w, policy, scan, found.value);
      if ListEstablished(w, policy, scan, root).Ok? {
        assert ListAccepts(w, policy, scan, found.value);
      }
    }
    if m :| ListAccepts(w, policy, scan, m) {
      Extraction.ListUnambiguous(InputOf(w, scan), m, found.value);
    }
  }

  lemma KnownDecides(w: World, policy: ReadonlyPolicy, scan: Tokens.TokenScan, root: Tree)
    requires Lawful(w) && ParsedAs(w, StatementText(scan), root)
    ensures var proven := AstProof(w, policy, root, Keyword(w, scan));
            && (TreeAccepts(w, policy, scan, root) <==> proven.Ok? && proven.value.Some?)
            && (TreeLeft(w, policy, scan, root) <==> proven == Ok(None))
            && (Provable(w, policy, scan)
                <==> TreeAccepts(w, policy, scan, root)
                     || (TreeLeft(w, policy, scan, root) && exists m :: ListAccepts(w, policy, scan, m)))
  {
    ProvedByTreeIff(w, policy, root, Keyword(w, scan));
    LeftIff(w, policy, root, Keyword(w, scan));
    ParsedOnce(w, StatementText(scan), root);
  }

  /** A text is proved exactly if its hash is the expected one, it scans, and its statement is provable. */
  lemma EstablishedIff(w: World, policy: ReadonlyPolicy, raw: seq<byte>, expected: string)
    requires Lawful(w)
    ensures Established(w, policy, raw, expected).Ok?
            <==> && w.sha256(raw) == expected && Tokens.Scan(w.u, raw).Ok?
                 && Provable(w, policy, Tokens.Scan(w.u, raw).value)
  {
    if w.sha256(raw) == expected && Tokens.Scan(w.u, raw).Ok? {
      var scan := Tokens.Scan(w.u, raw).value;
      var parsed := ParseStatement(w, StatementText(scan));
      if parsed.Ok? && parsed.value.Some? {
        ParsedIff(w, StatementText(scan), parsed.value.value);
        KnownDecides(w, policy, scan, parsed.value.value);
        ListDecides(w, policy, scan, parsed.value);
      } else {
        UnknownDecides(w, policy, scan);
      }
    }
  }

  lemma UnknownDecides(w: World, policy: ReadonlyPolicy, scan: Tokens.TokenScan)
    requires Lawful(w) && !(exists root :: ParseStatement(w, StatementText(scan)) == Ok(Some(root)))
    ensures Provable(w, policy, scan)
            <==> ParseStatement(w, StatementText(scan)) == Ok(None) && ListEstablished(w, policy, scan, None).Ok?
  {
    var text := StatementText(scan);
    forall root: Tree
      ensures !ParsedAs(w, text, root)
      ensures ParseStatement(w, text) == Ok(None) <==> w.parse(text).SyntaxError?
    {
      ParsedIff(w, text, root);
    }
    ParsedIff(w, text, Node(Other, false, false, false, None, []));
    ListDecides(w, policy, scan, None);
  }

  /** Without a blocklist, exactly these texts are accepted. */
  lemma AcceptedIff(w: World, policy: ReadonlyPolicy, raw: seq<byte>, expected: string)
    requires Lawful(w) && policy.blocked == {}
    ensures Verdict(w, policy, raw, expected).Ok?
            <==> && w.sha256(raw) == expected && Tokens.Scan(w.u, raw).Ok?
                 && Provable(w, policy, Tokens.Scan(w.u, raw).value)
  {
    EstablishedIff(w, policy, raw, expected);
    if Established(w, policy, raw, expected).Ok? {
      var (path, family, relations) := Established(w, policy, raw, expected).value;
      ConcludeIff(policy, path, family, relations);
    }
  }

  // ---- refusals ----

  /** A text that only the blocklist refuses is refused for a blocked object. */
  lemma BlockedCode(w: World, policy: ReadonlyPolicy, raw: seq<byte>, expected: string)
    requires Lawful(w) && Verdict(w, policy.(blocked := {}), raw, expected).Ok?
    ensures Verdict(w, policy, raw, expected).Err? ==>
              Verdict(w, policy, raw, expected) == Err(Reject(BlockedRelation))
  {
    EstablishedIgnoresBlocked(w, policy, policy.(blocked := {}), raw, expected);
  }

  /** What parse or tree route refuse, the guard refuses. */
  lemma StopsThere(w: World, policy: ReadonlyPolicy, raw: seq<byte>, scan: Tokens.TokenScan)
    requires Lawful(w) && Tokens.Scan(w.u, raw) == Ok(scan)
    ensures var v, parsed := Verdict(w, policy, raw, w.sha256(raw)), ParseStatement(w, StatementText(scan));
            && (parsed.Err? ==> v == Err(parsed.error))
            && (parsed.Ok? && parsed.value.Some? && AstProof(w, policy, parsed.value.value, Keyword(w, scan)).Err? ==>
                  v == Err(AstProof(w, policy, parsed.value.value, Keyword(w, scan)).error))
  {
  }

  /** What the parse refuses a scanned text for. */
  lemma ParseCodes(w: World, policy: ReadonlyPolicy, raw: seq<byte>, scan: Tokens.TokenScan)
    requires Lawful(w) && Tokens.Scan(w.u, raw) == Ok(scan)
    ensures var text, v := StatementText(scan), Verdict(w, policy, raw, w.sha256(raw));
            && (w.parse(text).ParserFailure? ==> v == Err(Reject(Unparsable)))
            && (w.parse(text).Statements? && (forall root :: !ParsedAs(w, text, root)) ==>
                  v == Err(Reject(MultipleStatements)))
  {
    StopsThere(w, policy, raw, scan);
    ParseFails(w, StatementText(scan));
  }

  lemma ParseFails(w: World, text: string)
    ensures w.parse(text).ParserFailure? ==> ParseStatement(w, text) == Err(Reject(Unparsable))
    ensures w.parse(text).Statements? && (forall root :: !ParsedAs(w, text, root)) ==>
              ParseStatement(w, text) == Err(Reject(MultipleStatements))
  {
    if w.parse(text).Statements? && ParseStatement(w, text).Ok? {
      ParsedIff(w, text, ParseStatement(w, text).value.value);
      assert ParsedAs(w, text, ParseStatement(w, text).value.value);
    }
  }

  lemma ExplainStops(w: World, policy: ReadonlyPolicy, t: Tree, keyword: string)
    requires Lawful(w) && ExplainsWrite(t, keyword)
    ensures AstProof(w, policy, t, keyword) == Err(Reject(NotReadonly))
  {
    assert RouteOf(w, t, keyword) == Stop(Reject(NotReadonly));
  }

  /** An EXPLAIN of something that writes is refused as writing. */
  lemma ExplainCode(w: World, policy: ReadonlyPolicy, raw: seq<byte>, scan: Tokens.TokenScan, root: Tree)
    requires Lawful(w) && Tokens.Scan(w.u, raw) == Ok(scan)
    requires ParsedAs(w, StatementText(scan), root) && ExplainsWrite(root, Keyword(w, scan))
    ensures Verdict(w, policy, raw, w.sha256(raw)) == Err(Reject(NotReadonly))
  {
    ParsedIff(w, StatementText(scan), root);
    StopsThere(w, policy, raw, scan);
    ExplainStops(w, policy, root, Keyword(w, scan));
  }

  /** The statement is one that writes, and no mere command. */
  ghost predicate Writes(w: World, scan: Tokens.TokenScan) {
    exists root: Tree :: ParsedAs(w, StatementText(scan), root) && root.write && !root.command
  }

  /** Of a text that goes to the list and is not in it, one that writes is refused as such, every other one as
      not supported. */
  lemma ListCodes(w: World, policy: ReadonlyPolicy, raw: seq<byte>, scan: Tokens.TokenScan)
    requires Lawful(w) && Tokens.Scan(w.u, raw) == Ok(scan) && GoesToList(w, policy, scan)
    requires forall m :: !List.Matches(List.READONLY_STATEMENTS, InputOf(w, scan), m)
    ensures Verdict(w, policy, raw, w.sha256(raw)) == Err(Reject(if Writes(w, scan) then NotReadonly else NotSupported))
  {
    var root := ListFollows(w, policy, raw, scan);
  }

  /** An inner query that writes is refused as writing, any other one that is no query as not supported. */
  lemma InnerQueryCodes(w: World, policy: ReadonlyPolicy, raw: seq<byte>, scan: Tokens.TokenScan, m: StatementMatch)
    requires Lawful(w) && Tokens.Scan(w.u, raw) == Ok(scan) && GoesToList(w, policy, scan)
    requires List.Matches(List.READONLY_STATEMENTS, InputOf(w, scan), m) && m.innerQuery.Some?
    ensures var v := Verdict(w, policy, raw, w.sha256(raw));
            && (w.parse(InnerText(scan, m)).SyntaxError? ==> v == Err(Reject(NotSupported)))
            && (forall t: Tree :: ParsedAs(w, InnerText(scan, m), t) && (t.write || !t.shape.Query?) ==>
                  v == Err(Reject(if t.write then NotReadonly else NotSupported)))
  {
    var root := ListFollows(w, policy, raw, scan);
    InnerCodes(w, policy, scan, root, m);
  }

  /** Behind the tree route comes the list. */
  lemma ListFollows(w: World, policy: ReadonlyPolicy, raw: seq<byte>, scan: Tokens.TokenScan)
    returns (root: Option<Tree>)
    requires Lawful(w) && Tokens.Scan(w.u, raw) == Ok(scan) && GoesToList(w, policy, scan)
    ensures Writes(w, scan) <==> root.Some? && root.value.write && !root.value.command
    ensures ListEstablished(w, policy, scan, root).Err? ==>
              Verdict(w, policy, raw, w.sha256(raw)) == Err(ListEstablished(w, policy, scan, root).error)
  {
    var text := StatementText(scan);
    ParsedIff(w, text, Node(Other, false, false, false, None, []));
    if w.parse(text).SyntaxError? {
      root := None;
    } else {
      var t: Tree :| TreeLeft(w, policy, scan, t);
      root := Some(t);
      ParsedOnce(w, text, t);
      LeftIff(w, policy, t, Keyword(w, scan));
    }
  }

  lemma InnerCodes(w: World, policy: ReadonlyPolicy, scan: Tokens.TokenScan, root: Option<Tree>, m: StatementMatch)
    requires Lawful(w) && List.Matches(List.READONLY_STATEMENTS, InputOf(w, scan), m) && m.innerQuery.Some?
    ensures w.parse(InnerText(scan, m)).SyntaxError? ==>
              ListEstablished(w, policy, scan, root) == Err(Reject(NotSupported))
    ensures forall t: Tree :: ParsedAs(w, InnerText(scan, m), t) && (t.write || !t.shape.Query?) ==>
              ListEstablished(w, policy, scan, root) == Err(Reject(if t.write then NotReadonly else NotSupported))
  {
    var found := ListMatch(InputOf(w, scan));
    Extraction.ListUnambiguous(InputOf(w, scan), m, found.value);
    var text := InnerText(scan, m);
    ParsedIff(w, text, Node(Other, false, false, false, None, []));
    forall t: Tree | ParsedAs(w, text, t)
      ensures ParseStatement(w, text) == Ok(Some(t))
    {
      ParsedIff(w, text, t);
    }
  }

  // ---- the order of the objects ----

  /** Where an object is first met. */
  predicate FirstAt(relations: seq<QualifiedRelation>, x: QualifiedRelation, k: nat) {
    k < |relations| && relations[k] == x && forall j :: 0 <= j < k ==> relations[j] != x
  }

  /** The proof lists the objects in the order in which they were first met. */
  lemma {:induction false} FirstMetFirst(relations: seq<QualifiedRelation>, i: nat, j: nat, k: nat, l: nat)
    requires i < j < |Distinct(relations)|
    requires FirstAt(relations, Distinct(relations)[i], k) && FirstAt(relations, Distinct(relations)[j], l)
    ensures k < l
    decreases |relations|
  {
    var front, last := relations[..|relations| - 1], relations[|relations| - 1];
    assert forall n :: 0 <= n < |front| ==> front[n] == relations[n];
    if j < |Distinct(front)| {
      assert Distinct(front)[j] in front && Distinct(front)[i] in front;
      FirstWithin(front, relations, Distinct(front)[j], l);
      FirstWithin(front, relations, Distinct(front)[i], k);
      FirstMetFirst(front, i, j, k, l);
    } else {
      assert Distinct(relations)[i] in front;
      FirstWithin(front, relations, Distinct(relations)[i], k);
    }
  }

  lemma FirstWithin(front: seq<QualifiedRelation>, all: seq<QualifiedRelation>, x: QualifiedRelation, k: nat)
    requires front <= all && x in front && FirstAt(all, x, k)
    ensures FirstAt(front, x, k)
  {
    var n :| 0 <= n < |front| && front[n] == x;
    assert all[n] == x;
  }
}
