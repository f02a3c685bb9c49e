/**
 What an accepted text guarantees, end to end: the tree that was proved holds no side effect and
 reads exactly the objects the proof lists, none of them blocked, and the texts that were
 parsed for it are themselves single, scannable statements.
 */
module SqlGuardTheorems {
  import opened Wrappers
  import opened Utf8
  import Tokens = SqlTokens
  import Bytes = SqlTokensBytes
  import List = StatementList
  import Extraction = StatementListExtraction
  import Checks = StatementListChecks
  import opened ReadonlyStatements
  import opened StatementTargets
  import opened SqlTree
  import opened SqlGuard
  import opened SqlGuardMeaning

  // ---- the walk covers the tree ----

  /** A table reference at or below `base` that name resolution from the root leaves unbound. */
  predicate Reads(root: Tree, base: Path, p: Path) {
    Valid(root, p) && base <= p && p in Unbound(root, {}, [])
  }

  lemma ReadsIff(root: Tree, base: Path, p: Path)
    requires Valid(root, p) && base <= p
    ensures Reads(root, base, p) <==> At(root, p).shape.Table? && !CteReference(root, p)
  {
    var top: Path := [];
    UnboundIff(root, {}, top, p);
    assert p[|top|..] == p;
  }

  /** Nothing at or below `base` is refused, and `relations` are exactly the objects that the
      unbound references read, all in the internal catalog. */
  ghost predicate Covered(w: World, policy: ReadonlyPolicy, root: Tree, base: Path, relations: seq<QualifiedRelation>) {
    && (forall p: Path :: Valid(root, p) && base <= p ==> Harmless(w, At(root, p)))
    && (forall p: Path :: Reads(root, base, p) ==> ReadsObject(w, policy, root, p, relations))
    && (forall x :: x in relations ==> exists p: Path :: Reads(root, base, p) && ReadBy(w, policy, root, p, x))
  }

  predicate ReadBy(w: World, policy: ReadonlyPolicy, root: Tree, p: Path, x: QualifiedRelation) {
    Valid(root, p) && TableReads(w, policy, At(root, p), x)
  }

  predicate ReadsObject(w: World, policy: ReadonlyPolicy, root: Tree, p: Path, relations: seq<QualifiedRelation>) {
    exists i :: 0 <= i < |relations| && ReadBy(w, policy, root, p, relations[i])
  }

  /** Each visited node passed, and its objects are among the result. */
  lemma {:induction false} VisitPassed(w: World, policy: ReadonlyPolicy, root: Tree, order: seq<Path>, i: nat)
    requires forall k :: 0 <= k < |order| ==> Valid(root, order[k])
    requires Visits(w, policy, root, order).Ok? && i < |order|
    ensures Visit(w, policy, root, order[i]).Ok?
    ensures forall x :: x in Visit(w, policy, root, order[i]).value ==> x in Visits(w, policy, root, order).value
    decreases |order|
  {
    if i < |order| - 1 {
      VisitPassed(w, policy, root, order[..|order| - 1], i);
    }
  }

  /** Every object of the result comes from some visited node. */
  lemma {:induction false} VisitSource(w: World, policy: ReadonlyPolicy, root: Tree, order: seq<Path>,
                                       x: QualifiedRelation)
    returns (i: nat)
    requires forall k :: 0 <= k < |order| ==> Valid(root, order[k])
    requires Visits(w, policy, root, order).Ok? && x in Visits(w, policy, root, order).value
    ensures i < |order| && Visit(w, policy, root, order[i]).Ok? && x in Visit(w, policy, root, order[i]).value
    decreases |order|
  {
    i := |order| - 1;
    if x in Visits(w, policy, root, order[..i]).value {
      i := VisitSource(w, policy, root, order[..i], x);
    }
  }

  /** A refused walk reports the refusal of the first node that is refused. */
  lemma {:induction false} VisitsFirstRefusal(w: World, policy: ReadonlyPolicy, root: Tree, order: seq<Path>)
    returns (i: nat)
    requires forall k :: 0 <= k < |order| ==> Valid(root, order[k])
    requires Visits(w, policy, root, order).Err?
    ensures i < |order| && Visit(w, policy, root, order[i]).Err?
    ensures Visit(w, policy, root, order[i]).error == Visits(w, policy, root, order).error
    ensures forall k :: 0 <= k < i ==> Visit(w, policy, root, order[k]).Ok?
    decreases |order|
  {
    i := |order| - 1;
    var front := order[..i];
    if Visits(w, policy, root, front).Err? {
      i := VisitsFirstRefusal(w, policy, root, front);
    } else {
      forall k | 0 <= k < |front|
        ensures Visit(w, policy, root, order[k]).Ok?
      {
        VisitPassed(w, policy, root, front, k);
      }
    }
  }

  /** `_collect_relations` succeeds only with exactly what the resolver leaves unbound. */
  lemma CollectedCovers(w: World, policy: ReadonlyPolicy, root: Tree, base: Path)
    requires Lawful(w) && Valid(root, base) && Collected(w, policy, root, base).Ok?
    ensures Covered(w, policy, root, base, Collected(w, policy, root, base).value)
  {
    WalkCovers(w, policy, root, base, w.walk(root, base), Collected(w, policy, root, base).value);
  }

  lemma WalkCovers(w: World, policy: ReadonlyPolicy, root: Tree, base: Path, order: seq<Path>,
                   relations: seq<QualifiedRelation>)
    requires WalksFrom(order, root, base) && Visits(w, policy, root, order) == Ok(relations)
    ensures Covered(w, policy, root, base, relations)
  {
    forall p: Path | Valid(root, p) && base <= p
      ensures Harmless(w, At(root, p))
      ensures Reads(root, base, p) ==> ReadsObject(w, policy, root, p, relations)
    {
      NodeCovered(w, policy, root, base, order, relations, p);
    }
    forall x | x in relations
      ensures exists p: Path :: Reads(root, base, p) && ReadBy(w, policy, root, p, x)
    {
      var p := ObjectRead(w, policy, root, base, order, relations, x);
    }
  }

  lemma NodeCovered(w: World, policy: ReadonlyPolicy, root: Tree, base: Path, order: seq<Path>,
                    relations: seq<QualifiedRelation>, p: Path)
    requires WalksFrom(order, root, base) && Visits(w, policy, root, order) == Ok(relations)
    requires Valid(root, p) && base <= p
    ensures Harmless(w, At(root, p))
    ensures Reads(root, base, p) ==> ReadsObject(w, policy, root, p, relations)
  {
    assert p in order;
    var i :| 0 <= i < |order| && order[i] == p;
    VisitPassed(w, policy, root, order, i);
    RefusalIff(w, At(root, p));
    VisitReads(w, policy, root, base, p, relations);
  }

  lemma ObjectRead(w: World, policy: ReadonlyPolicy, root: Tree, base: Path, order: seq<Path>,
                   relations: seq<QualifiedRelation>, x: QualifiedRelation)
    returns (p: Path)
    requires WalksFrom(order, root, base) && Visits(w, policy, root, order) == Ok(relations) && x in relations
    ensures Reads(root, base, p) && ReadBy(w, policy, root, p, x)
  {
    var i := VisitSource(w, policy, root, order, x);
    p := order[i];
    ReadsIff(root, base, p);
    ObjectIff(w, policy, At(root, p), x);
  }

  lemma VisitReads(w: World, policy: ReadonlyPolicy, root: Tree, base: Path, p: Path, relations: seq<QualifiedRelation>)
    requires Valid(root, p) && base <= p && Visit(w, policy, root, p).Ok?
    requires forall x :: x in Visit(w, policy, root, p).value ==> x in relations
    ensures Reads(root, base, p) ==> ReadsObject(w, policy, root, p, relations)
  {
    ReadsIff(root, base, p);
    if Reads(root, base, p) {
      var found := ObjectOf(w, policy, At(root, p)).value;
      assert Visit(w, policy, root, p).value == [found];
      assert found in [found] && found in relations;
      ObjectIff(w, policy, At(root, p), found);
      var i :| 0 <= i < |relations| && relations[i] == found;
      assert ReadBy(w, policy, root, p, relations[i]);
    }
  }

  /** The node is not harmless, or it reads what is no object of the internal catalog. */
  ghost predicate Refused(w: World, policy: ReadonlyPolicy, root: Tree, p: Path) {
    Valid(root, p) && (!Harmless(w, At(root, p)) || (Reads(root, p, p) && forall x :: !ReadBy(w, policy, root, p, x)))
  }

  lemma RefusedIff(w: World, policy: ReadonlyPolicy, root: Tree, p: Path)
    requires Valid(root, p)
    ensures Refused(w, policy, root, p) <==> Visit(w, policy, root, p).Err?
  {
    var t := At(root, p);
    RefusalIff(w, t);
    ReadsIff(root, p, p);
    if t.shape.Table? {
      var found := ObjectOf(w, policy, t);
      if found.Ok? {
        ObjectIff(w, policy, t, found.value);
        assert ReadBy(w, policy, root, p, found.value);
      } else {
        forall x
          ensures !ReadBy(w, policy, root, p, x)
        {
          ObjectIff(w, policy, t, x);
        }
      }
    }
  }

  /** And it fails exactly if some node at or below `base` is refused. */
  lemma CollectedRefuses(w: World, policy: ReadonlyPolicy, root: Tree, base: Path)
    requires Lawful(w) && Valid(root, base)
    ensures Collected(w, policy, root, base).Err? <==> exists p: Path :: base <= p && Refused(w, policy, root, p)
  {
    var order := w.walk(root, base);
    assert WalksFrom(order, root, base);
    if Collected(w, policy, root, base).Err? {
      var i := VisitsFirstRefusal(w, policy, root, order);
      RefusedIff(w, policy, root, order[i]);
    } else if p: Path :| base <= p && Refused(w, policy, root, p) {
      RefusedIff(w, policy, root, p);
      assert p in order;
      var i :| 0 <= i < |order| && order[i] == p;
      VisitPassed(w, policy, root, order, i);
    }
  }

  // ---- end to end ----

  /** The parser knows the text and finds one statement in it that counts. */
  ghost predicate ParsedAs(w: World, text: string, root: Tree) {
    w.parse(text).Statements? && OnlyStatement(w.parse(text).statements, root)
  }

  /** The tree route: the statement is of a provable shape and family; what is listed is what the walked part
      reads, and for a SHOW the object it names. */
  ghost predicate ProvedByTree(w: World, policy: ReadonlyPolicy, scan: Tokens.TokenScan, family: string,
                               relations: seq<QualifiedRelation>) {
    exists root: Tree, base: Path, objects: seq<QualifiedRelation> ::
      && ParsedAs(w, StatementText(scan), root) && ProvableAt(w, policy, root, Keyword(w, scan), base, family)
      && Valid(root, base)
      && Covered(w, policy, root, base, objects)
      && ListsExactly(w, policy, root, objects, relations)
  }

  ghost predicate ListsExactly(w: World, policy: ReadonlyPolicy, root: Tree, objects: seq<QualifiedRelation>,
                               relations: seq<QualifiedRelation>) {
    forall x :: x in relations <==> x in objects || ShowReads(w, policy, root, x)
  }

  /** The inner-query route of the statement list. */
  ghost predicate ProvedByInnerQuery(w: World, policy: ReadonlyPolicy, scan: Tokens.TokenScan, m: StatementMatch,
                                     relations: seq<QualifiedRelation>) {
    exists inner: Tree ::
      && m.innerQuery.Some?
      && ParsedAs(w, TextOf(Tokens.TextBetween(scan.raw, m.innerQuery.value.0, m.innerQuery.value.1)), inner)
      && inner.shape.Query?
      && Covered(w, policy, inner, [], relations)
  }

  /** The other list entries: the extracted objects, resolved. */
  ghost predicate ProvedByList(w: World, policy: ReadonlyPolicy, m: StatementMatch, relations: seq<QualifiedRelation>) {
    && m.innerQuery.None? && |relations| == |m.relations|
    && forall i :: 0 <= i < |relations| ==>
                     && HomeCatalog(w, m.relations[i].catalog)
                     && StandsFor(w, policy, m.relations[i].database, m.relations[i].name, relations[i])
  }

  ghost predicate Justified(w: World, policy: ReadonlyPolicy, scan: Tokens.TokenScan, path: ProofPath, family: string,
                            relations: seq<QualifiedRelation>) {
    match path
    case Ast => ProvedByTree(w, policy, scan, family, relations)
    case StatementListPath =>
      exists m :: Extraction.ShippedMatch(InputOf(w, scan), m) && m.family == family
                  && (ProvedByInnerQuery(w, policy, scan, m, relations) || ProvedByList(w, policy, m, relations))
  }

  /** Nothing is established without a reason. */
  lemma EstablishedJustified(w: World, policy: ReadonlyPolicy, raw: seq<byte>, expected: string,
                             path: ProofPath, family: string, relations: seq<QualifiedRelation>)
    requires Lawful(w) && Established(w, policy, raw, expected) == Ok((path, family, relations))
    ensures w.sha256(raw) == expected && Tokens.Scan(w.u, raw).Ok?
    ensures Justified(w, policy, Tokens.Scan(w.u, raw).value, path, family, relations)
  {
    var scan := Tokens.Scan(w.u, raw).value;
    var root := ParseStatement(w, StatementText(scan)).value;
    if root.Some? && AstProof(w, policy, root.value, Keyword(w, scan)).value.Some? {
      ParsedIff(w, StatementText(scan), root.value);
      AstJustified(w, policy, scan, root.value, family, relations);
    } else {
      assert ListEstablished(w, policy, scan, root) == Ok((path, family, relations));
      ListEstablishedJustified(w, policy, scan, root);
    }
  }

  lemma ListEstablishedJustified(w: World, policy: ReadonlyPolicy, scan: Tokens.TokenScan, root: Option<Tree>)
    requires Lawful(w) && ListEstablished(w, policy, scan, root).Ok?
    ensures ListEstablished(w, policy, scan, root).value.0 == StatementListPath
    ensures Justified(w, policy, scan, StatementListPath, ListEstablished(w, policy, scan, root).value.1,
                      ListEstablished(w, policy, scan, root).value.2)
  {
    var src, relations := InputOf(w, scan), ListEstablished(w, policy, scan, root).value.2;
    var m :| List.Matches(List.READONLY_STATEMENTS, src, m);
    forall other | List.Matches(List.READONLY_STATEMENTS, src, other)
      ensures other == m
    {
      Extraction.ListUnambiguous(src, m, other);
    }
    assert ListProof(w, policy, scan, m) == Ok(relations);
    Extraction.MatchMeetsRule(src, m);
    ListJustified(w, policy, scan, m, relations);
  }

  lemma AstJustified(w: World, policy: ReadonlyPolicy, scan: Tokens.TokenScan, root: Tree, family: string,
                     relations: seq<QualifiedRelation>)
    requires Lawful(w) && ParsedAs(w, StatementText(scan), root)
    requires AstProof(w, policy, root, Keyword(w, scan)) == Ok(Some((family, relations)))
    ensures ProvedByTree(w, policy, scan, family, relations)
  {
    if root.shape.Show? {
      ShowRoute(w, policy, root, Keyword(w, scan), family, relations);
      assert ProvableAt(w, policy, root, Keyword(w, scan), [], family);
    } else {
      var base := WalkRoute(w, policy, root, Keyword(w, scan), family, relations);
    }
  }

  /** The proof of a SHOW walked all of it. */
  lemma ShowRoute(w: World, policy: ReadonlyPolicy, root: Tree, keyword: string, family: string,
                  relations: seq<QualifiedRelation>)
    requires Lawful(w) && root.shape.Show? && AstProof(w, policy, root, keyword) == Ok(Some((family, relations)))
    ensures ProvableShow(w, policy, root) && FamilyOfShow(w, root, family)
    ensures exists objects :: Covered(w, policy, root, [], objects) && ListsExactly(w, policy, root, objects, relations)
  {
    var objects := Collected(w, policy, root, []).value;
    CollectedCovers(w, policy, root, []);
    ShowIff(w, policy, root, objects);
  }

  /** The proof of any other tree walked the part at `base` and lists what it collected. */
  lemma WalkRoute(w: World, policy: ReadonlyPolicy, root: Tree, keyword: string, family: string,
                  relations: seq<QualifiedRelation>) returns (base: Path)
    requires Lawful(w) && !root.shape.Show? && AstProof(w, policy, root, keyword) == Ok(Some((family, relations)))
    ensures ProvableAt(w, policy, root, keyword, base, family) && Valid(root, base)
    ensures Covered(w, policy, root, base, relations)
    ensures ListsExactly(w, policy, root, relations, relations)
  {
    RouteValid(w, root, keyword);
    base := RouteOf(w, root, keyword).base;
    RouteIff(w, policy, root, keyword, base, family);
    CollectedCovers(w, policy, root, base);
  }

  /** The tree route proves a statement exactly if it is of a provable shape over some part of which no node is
      refused. */
  lemma ProvedByTreeIff(w: World, policy: ReadonlyPolicy, root: Tree, keyword: string)
    requires Lawful(w)
    ensures AstProof(w, policy, root, keyword).Ok? && AstProof(w, policy, root, keyword).value.Some?
            <==> exists base: Path, family :: ProvableOver(w, policy, root, keyword, base, family)
  {
    if root.shape.Show? {
      ShowProvedIff(w, policy, root, keyword);
    } else {
      if base: Path, family :| ProvableOver(w, policy, root, keyword, base, family) {
        RouteIff(w, policy, root, keyword, base, family);
        CollectedRefuses(w, policy, root, base);
      }
      if AstProof(w, policy, root, keyword).Ok? && AstProof(w, policy, root, keyword).value.Some? {
        RouteValid(w, root, keyword);
        var base, family := RouteOf(w, root, keyword).base, RouteOf(w, root, keyword).family;
        RouteIff(w, policy, root, keyword, base, family);
        CollectedRefuses(w, policy, root, base);
        assert ProvableOver(w, policy, root, keyword, base, family);
      }
    }
  }

  ghost predicate ProvableOver(w: World, policy: ReadonlyPolicy, root: Tree, keyword: string, base: Path,
                               family: string) {
    && ProvableAt(w, policy, root, keyword, base, family) && Valid(root, base)
    && forall p: Path :: base <= p ==> !Refused(w, policy, root, p)
  }

  lemma ShowProvedIff(w: World, policy: ReadonlyPolicy, root: Tree, keyword: string)
    requires Lawful(w) && root.shape.Show?
    ensures AstProof(w, policy, root, keyword).Ok? && AstProof(w, policy, root, keyword).value.Some?
            <==> exists base: Path, family :: ProvableOver(w, policy, root, keyword, base, family)
  {
    CollectedRefuses(w, policy, root, []);
    var collected := Collected(w, policy, root, []);
    if collected.Ok? {
      ShowIff(w, policy, root, collected.value);
      if ProvableShow(w, policy, root) {
        assert ProvableOver(w, policy, root, keyword, [], ShowOutcome(w, policy, root, collected.value).value.value.0);
      }
    } else {
      var p: Path :| [] <= p && Refused(w, policy, root, p);
      assert forall base: Path, family :: ProvableAt(w, policy, root, keyword, base, family) ==> base <= p;
    }
  }

  lemma {:induction false} ResolvedOneByOne(w: World, policy: ReadonlyPolicy, refs: seq<RelationRef>,
                                            relations: seq<QualifiedRelation>)
    requires ResolveAll(w, policy, refs) == Ok(relations)
    ensures |relations| == |refs|
    ensures forall i :: 0 <= i < |refs| ==>
              HomeCatalog(w, refs[i].catalog) && StandsFor(w, policy, refs[i].database, refs[i].name, relations[i])
  {
    if refs != [] {
      ResolveIff(w, policy, refs[0].catalog, refs[0].database, refs[0].name, relations[0]);
      ResolvedOneByOne(w, policy, refs[1..], relations[1..]);
      assert forall i :: 1 <= i < |refs| ==> refs[i] == refs[1..][i - 1] && relations[i] == relations[1..][i - 1];
    }
  }

  lemma ListJustified(w: World, policy: ReadonlyPolicy, scan: Tokens.TokenScan, m: StatementMatch,
                      relations: seq<QualifiedRelation>)
    requires Lawful(w) && ListProof(w, policy, scan, m) == Ok(relations)
    ensures ProvedByInnerQuery(w, policy, scan, m, relations) || ProvedByList(w, policy, m, relations)
  {
    if m.innerQuery.Some? {
      var text := TextOf(Tokens.TextBetween(scan.raw, m.innerQuery.value.0, m.innerQuery.value.1));
      var inner := ParseStatement(w, text).value.value;
      ParsedIff(w, text, inner);
      CollectedCovers(w, policy, inner, []);
    } else {
      ResolvedOneByOne(w, policy, m.relations, relations);
    }
  }

  /** A proof is backed by one of the three routes, lists each object once, and lists no
      blocked object. */
  lemma AcceptedIsJustified(w: World, policy: ReadonlyPolicy, raw: seq<byte>, expected: string)
    requires Lawful(w) && Verdict(w, policy, raw, expected).Ok?
    ensures w.sha256(raw) == expected && Tokens.Scan(w.u, raw).Ok?
    ensures var proof := Verdict(w, policy, raw, expected).value;
            && (forall x :: x in proof.relations ==> x !in policy.blocked)
            && (forall i, j :: 0 <= i < j < |proof.relations| ==> proof.relations[i] != proof.relations[j])
            && exists relations ::
                 && Justified(w, policy, Tokens.Scan(w.u, raw).value, proof.path, proof.family, relations)
                 && forall x :: x in relations <==> x in proof.relations
  {
    var (path, family, relations) := Established(w, policy, raw, expected).value;
    EstablishedJustified(w, policy, raw, expected, path, family, relations);
    var proof := Verdict(w, policy, raw, expected).value;
    assert forall x :: x in relations <==> x in proof.relations;
    forall x | x in proof.relations
      ensures x !in policy.blocked
    {
      var i :| 0 <= i < |relations| && relations[i] == x;
    }
  }

  /** What the guard answers where hash or scan already fail. */
  lemma RefusedBeforeParsing(w: World, policy: ReadonlyPolicy, raw: seq<byte>, expected: string)
    requires Lawful(w)
    ensures w.sha256(raw) != expected ==> Verdict(w, policy, raw, expected) == Err(Reject(HashMismatch))
    ensures w.sha256(raw) == expected && Tokens.Scan(w.u, raw).Err? ==>
              var why := Tokens.Scan(w.u, raw).error;
              && Verdict(w, policy, raw, expected).Err? && Verdict(w, policy, raw, expected).error.Reject?
              && var code := Verdict(w, policy, raw, expected).error.code;
                 && (code == HintPresent <==> why == Tokens.HintComment)
                 && (code == MultipleStatements <==> why == Tokens.MultiStatement)
                 && (code == NotReadonly <==> why == Tokens.IntoOutfile)
                 && (code == Unparsable <==> why in {Tokens.Empty, Tokens.TooLong, Tokens.Unterminated})
                 && (code == AmbiguousCharacter
                     <==> why in {Tokens.InvalidUtf8, Tokens.Bom, Tokens.ControlCharacter, Tokens.AmbiguousPunctuation})
  {
  }

  // ---- the blocklist ----

  predicate SameButBlocked(a: ReadonlyPolicy, b: ReadonlyPolicy) { a.defaultDatabase == b.defaultDatabase }

  lemma VisitIgnoresBlocked(w: World, a: ReadonlyPolicy, b: ReadonlyPolicy, root: Tree, p: Path)
    requires SameButBlocked(a, b) && Valid(root, p)
    ensures Visit(w, a, root, p) == Visit(w, b, root, p)
  {
  }

  lemma {:induction false} VisitsIgnoreBlocked(w: World, a: ReadonlyPolicy, b: ReadonlyPolicy, root: Tree,
                                               order: seq<Path>)
    requires SameButBlocked(a, b) && forall i :: 0 <= i < |order| ==> Valid(root, order[i])
    ensures Visits(w, a, root, order) == Visits(w, b, root, order)
    decreases |order|
  {
    if order != [] {
      VisitsIgnoreBlocked(w, a, b, root, order[..|order| - 1]);
      VisitIgnoresBlocked(w, a, b, root, order[|order| - 1]);
    }
  }

  lemma {:induction false} ResolveIgnoresBlocked(w: World, a: ReadonlyPolicy, b: ReadonlyPolicy, refs: seq<RelationRef>)
    requires SameButBlocked(a, b)
    ensures ResolveAll(w, a, refs) == ResolveAll(w, b, refs)
    decreases |refs|
  {
    if refs != [] {
      ResolveIgnoresBlocked(w, a, b, refs[1..]);
    }
  }

  lemma ProofsIgnoreBlocked(w: World, a: ReadonlyPolicy, b: ReadonlyPolicy, t: Tree, keyword: string)
    requires Lawful(w) && SameButBlocked(a, b)
    ensures AstProof(w, a, t, keyword) == AstProof(w, b, t, keyword)
    ensures Collected(w, a, t, []) == Collected(w, b, t, [])
  {
    RouteValid(w, t, keyword);
    assert WalksFrom(w.walk(t, []), t, []);
    VisitsIgnoreBlocked(w, a, b, t, w.walk(t, []));
    if RouteOf(w, t, keyword).Walk? {
      var base := RouteOf(w, t, keyword).base;
      assert WalksFrom(w.walk(t, base), t, base);
      VisitsIgnoreBlocked(w, a, b, t, w.walk(t, base));
    }
  }

  lemma ListProofIgnoresBlocked(w: World, a: ReadonlyPolicy, b: ReadonlyPolicy, scan: Tokens.TokenScan,
                                m: StatementMatch)
    requires Lawful(w) && SameButBlocked(a, b)
    ensures ListProof(w, a, scan, m) == ListProof(w, b, scan, m)
  {
    if m.innerQuery.Some? {
      var text := TextOf(Tokens.TextBetween(scan.raw, m.innerQuery.value.0, m.innerQuery.value.1));
      if ParseStatement(w, text).Ok? && ParseStatement(w, text).value.Some? {
        ProofsIgnoreBlocked(w, a, b, ParseStatement(w, text).value.value, "");
      }
    } else {
      ResolveIgnoresBlocked(w, a, b, m.relations);
    }
  }

  lemma ListIgnoresBlocked(w: World, a: ReadonlyPolicy, b: ReadonlyPolicy, scan: Tokens.TokenScan, root: Option<Tree>)
    requires Lawful(w) && SameButBlocked(a, b)
    ensures ListEstablished(w, a, scan, root) == ListEstablished(w, b, scan, root)
  {
    forall m
      ensures ListProof(w, a, scan, m) == ListProof(w, b, scan, m)
    {
      ListProofIgnoresBlocked(w, a, b, scan, m);
    }
  }

  /** Everything before the last step is decided without the blocklist. */
  lemma EstablishedIgnoresBlocked(w: World, a: ReadonlyPolicy, b: ReadonlyPolicy, raw: seq<byte>, expected: string)
    requires Lawful(w) && SameButBlocked(a, b)
    ensures Established(w, a, raw, expected) == Established(w, b, raw, expected)
  {
    if w.sha256(raw) == expected && Tokens.Scan(w.u, raw).Ok? {
      var scan := Tokens.Scan(w.u, raw).value;
      var parsed := ParseStatement(w, StatementText(scan));
      if parsed.Ok? {
        if parsed.value.Some? {
          ProofsIgnoreBlocked(w, a, b, parsed.value.value, Keyword(w, scan));
        }
        ListIgnoresBlocked(w, a, b, scan, parsed.value);
      }
    }
  }

  /** A longer blocklist only refuses more: what it accepts, the shorter one accepts with the
      same proof; and it refuses a text that the shorter one accepts exactly if the proof
      lists a newly blocked object. */
  lemma BlocklistMonotone(w: World, a: ReadonlyPolicy, b: ReadonlyPolicy, raw: seq<byte>, expected: string)
    requires Lawful(w) && SameButBlocked(a, b) && a.blocked <= b.blocked
    ensures Verdict(w, b, raw, expected).Ok? ==> Verdict(w, a, raw, expected) == Verdict(w, b, raw, expected)
    ensures Verdict(w, a, raw, expected).Ok? ==>
              (Verdict(w, b, raw, expected).Err? <==>
               exists x :: x in Verdict(w, a, raw, expected).value.relations && x in b.blocked)
  {
    EstablishedIgnoresBlocked(w, a, b, raw, expected);
    if Established(w, a, raw, expected).Ok? {
      var (path, family, relations) := Established(w, a, raw, expected).value;
      ConcludeIff(a, path, family, relations);
      ConcludeIff(b, path, family, relations);
    }
  }

  lemma ConcludeIff(policy: ReadonlyPolicy, path: ProofPath, family: string, relations: seq<QualifiedRelation>)
    ensures Conclude(policy, path, family, relations).Err? <==> exists x :: x in relations && x in policy.blocked
    ensures Conclude(policy, path, family, relations).Ok? ==>
              forall x :: x in Conclude(policy, path, family, relations).value.relations <==> x in relations
  {
    if x :| x in relations && x in policy.blocked {
      var i :| 0 <= i < |relations| && relations[i] == x;
    }
  }

  // ---- the texts that are parsed ----

  /** The text given to the parser is the statement: it is encoded by the bytes from the first to the last token,
      and scanned again it is accepted and has the statement's own tokens. */
  lemma ParsedTextIsStatement(w: World, raw: seq<byte>)
    requires Tokens.Scan(w.u, raw).Ok?
    ensures var scan := Tokens.Scan(w.u, raw).value;
            var stmt := Tokens.StatementTokens(scan);
            && stmt != [] && Bytes.RescansAs(w.u, raw, stmt, 0, stmt[0].startByte, stmt[|stmt| - 1].endByte)
            && Encode(StatementText(scan)) == raw[stmt[0].startByte..stmt[|stmt| - 1].endByte]
  {
    var stmt := Tokens.StatementTokens(Tokens.Scan(w.u, raw).value);
    Bytes.StatementHasTokens(w.u, raw);
    Bytes.StatementRescans(w.u, raw, stmt, 0);
    Bytes.ScanKeepsRaw(w.u, raw);
    TextEncodes(Tokens.Scan(w.u, raw).value);
  }

  lemma TextEncodes(scan: Tokens.TokenScan)
    requires var stmt := Tokens.StatementTokens(scan);
             stmt != [] && Tokens.TextBetween(scan.raw, stmt[0].startByte, stmt[|stmt| - 1].endByte).Some?
    ensures var stmt := Tokens.StatementTokens(scan);
            var a, b := stmt[0].startByte, stmt[|stmt| - 1].endByte;
            a <= b <= |scan.raw| && Encode(StatementText(scan)) == scan.raw[a..b]
  {
    var stmt := Tokens.StatementTokens(scan);
    BetweenEncodes(scan.raw, stmt[0].startByte, stmt[|stmt| - 1].endByte);
  }

  lemma BetweenEncodes(raw: seq<byte>, a: nat, b: nat)
    requires Tokens.TextBetween(raw, a, b).Some?
    ensures a <= b <= |raw| && Encode(Tokens.TextBetween(raw, a, b).value) == raw[a..b]
  {
    EncodeDecode(raw[a..b]);
  }

  /** The bytes of a token encode this text. */
  predicate Spelled(raw: seq<byte>, t: Tokens.SqlToken, text: string) {
    t.startByte <= t.endByte <= |raw| && Encode(text) == raw[t.startByte..t.endByte]
  }

  lemma TokenSpelled(w: World, raw: seq<byte>, t: Tokens.SqlToken)
    requires Tokens.Scan(w.u, raw).Ok? && t in Tokens.StatementTokens(Tokens.Scan(w.u, raw).value)
    ensures Spelled(raw, t, TextOf(Tokens.TextBetween(raw, t.startByte, t.endByte)))
  {
    var scan := Tokens.Scan(w.u, raw).value;
    Bytes.StatementMembers(w.u, raw, t);
    var i :| 0 <= i < |scan.tokens| && scan.tokens[i] == t;
    Bytes.TokenRanges(w.u, raw, i);
    BetweenEncodes(raw, t.startByte, t.endByte);
  }

  /** The statement list is given the tokens of the statement, each with the text that its bytes encode, and the
      keyword of the statement is its first token in upper case. */
  lemma TokensAreSpelled(w: World, raw: seq<byte>)
    requires Tokens.Scan(w.u, raw).Ok?
    ensures var scan := Tokens.Scan(w.u, raw).value;
            var stmt, src := Tokens.StatementTokens(scan), InputOf(w, scan);
            && |src.tokens| == |stmt| && stmt != [] && src.upper == w.u.upper
            && (forall i :: 0 <= i < |stmt| ==>
                  && src.tokens[i].kind == stmt[i].kind && src.tokens[i].startByte == stmt[i].startByte
                  && src.tokens[i].endByte == stmt[i].endByte && Spelled(raw, stmt[i], src.tokens[i].text))
            && exists text :: Spelled(raw, stmt[0], text) && Keyword(w, scan) == w.u.upper(text)
  {
    var scan := Tokens.Scan(w.u, raw).value;
    var stmt := Tokens.StatementTokens(scan);
    Bytes.StatementHasTokens(w.u, raw);
    Bytes.ScanKeepsRaw(w.u, raw);
    forall i | 0 <= i < |stmt|
      ensures InputOf(w, scan).tokens[i].kind == stmt[i].kind && Spelled(raw, stmt[i], InputOf(w, scan).tokens[i].text)
    {
      TokSpelled(raw, stmt, i);
      TokenSpelled(w, raw, stmt[i]);
    }
    TokenSpelled(w, raw, stmt[0]);
  }

  lemma {:induction false} TokSpelled(raw: seq<byte>, tokens: seq<Tokens.SqlToken>, i: nat)
    requires i < |tokens|
    ensures ToksOf(raw, tokens)[i].text == TextOf(Tokens.TextBetween(raw, tokens[i].startByte, tokens[i].endByte))
  {
    if i > 0 {
      TokSpelled(raw, tokens[1..], i - 1);
    }
  }

  /** The inner query of a list match is the statement from its third token on, and its bytes
      scan as exactly those tokens. */
  lemma InnerQueryIsStatement(w: World, raw: seq<byte>, m: StatementMatch)
    requires Tokens.Scan(w.u, raw).Ok?
    requires List.Matches(List.READONLY_STATEMENTS, InputOf(w, Tokens.Scan(w.u, raw).value), m) && m.innerQuery.Some?
    ensures var stmt := Tokens.StatementTokens(Tokens.Scan(w.u, raw).value);
            |stmt| > 2 && m.innerQuery.value == (stmt[2].startByte, stmt[|stmt| - 1].endByte)
            && Bytes.RescansAs(w.u, raw, stmt, 2, m.innerQuery.value.0, m.innerQuery.value.1)
  {
    var scan := Tokens.Scan(w.u, raw).value;
    var src := InputOf(w, scan);
    InnerQueryRange(src, m);
    Bytes.StatementRescans(w.u, raw, Tokens.StatementTokens(scan), 2);
  }

  lemma InnerQueryRange(src: Input, m: StatementMatch)
    requires List.Matches(List.READONLY_STATEMENTS, src, m) && m.innerQuery.Some?
    ensures |src.tokens| > 2
    ensures m.innerQuery.value == (src.tokens[2].startByte, src.tokens[|src.tokens| - 1].endByte)
  {
    var i, caps: Captures :| List.MatchesBy(List.READONLY_STATEMENTS, i, src, caps)
                             && m == ToMatch(List.READONLY_STATEMENTS[i], caps);
    Checks.ShippedListChecked(i);
    CheckImpliesExtraction(List.READONLY_STATEMENTS[i], src, |src.tokens|, caps);
    OnlyExplain(i);
    Extraction.ExplainCaptures(List.READONLY_STATEMENTS[i], src, caps);
  }

  lemma OnlyExplain(i: nat)
    requires i < |List.READONLY_STATEMENTS| && List.READONLY_STATEMENTS[i].target == InnerQuery
    ensures List.READONLY_STATEMENTS[i] == List.ExplainModifier()
  {
  }
}
