/**
 The `confirmed_readonly` admission of one SQL text: hash, scan, parse, proof by syntax tree or
 by the statement list, and the blocklist. The parser and the hash are parameters; the order
 in which the parser library walks a tree is arbitrary.
 */
module SqlGuard {
  import opened Wrappers
  import opened Utf8
  import Tokens = SqlTokens
  import Scanner = SqlScanner
  import List = StatementList
  import opened ReadonlyStatements
  import opened StatementTargets
  import StatementListExtraction
  import opened SqlTree

  datatype Rejection =
    | HashMismatch
    | Unparsable
    | AmbiguousCharacter
    | HintPresent
    | MultipleStatements
    | NotReadonly
    | TableFunctionUsed
    | QualifiedFunction
    | ExternalCatalog
    | NotSupported
    | BlockedRelation

  /** A refusal with its code, or the contract error that an empty object name raises. */
  datatype Failure = Reject(code: Rejection) | InvalidName

  datatype QualifiedRelation = QualifiedRelation(database: string, name: string)

  datatype ReadonlyPolicy = ReadonlyPolicy(defaultDatabase: string, blocked: set<QualifiedRelation>)

  datatype ProofPath = Ast | StatementListPath

  datatype ReadonlyProof = ReadonlyProof(path: ProofPath, family: string, relations: seq<QualifiedRelation>)

  datatype Parsed = SyntaxError | ParserFailure | Statements(statements: seq<Option<Tree>>)

  /** Everything outside the guard: Unicode tables, the hash, the parser, its tree walk. */
  datatype World = World(u: Tokens.Unicode, sha256: seq<byte> -> string, parse: string -> Parsed,
                         walk: (Tree, Path) -> seq<Path>)

  // ---- objects ----

  predicate Internal(w: World, catalog: string) {
    catalog == "" || w.u.lower(catalog) == "default_catalog"
  }

  function Resolve(w: World, policy: ReadonlyPolicy, catalog: string, database: string, name: string)
    : Result<QualifiedRelation, Failure> {
    if !Internal(w, catalog) then Err(Reject(ExternalCatalog))
    else
      var db := if database == "" then policy.defaultDatabase else database;
      if db == "" || name == "" then Err(InvalidName)
      else Ok(QualifiedRelation(w.u.lower(db), w.u.lower(name)))
  }

  function TextOf(o: Option<string>): string { if o.Some? then o.value else "" }

  // ---- one node ----

  /** What a node alone makes the guard refuse. */
  function Refusal(w: World, t: Tree): Option<Failure> {
    if t.write then Some(Reject(NotReadonly))
    else match t.shape
      case TableFunction => Some(Reject(TableFunctionUsed))
      case Lateral(overSubquery) => if overSubquery then None else Some(Reject(TableFunctionUsed))
      case Dot(intoFunction) => if intoFunction then Some(Reject(QualifiedFunction)) else None
      case Column(catalog) => if Internal(w, catalog) then None else Some(Reject(ExternalCatalog))
      case Table(plain, _, _, _) => if plain then None else Some(Reject(TableFunctionUsed))
      case _ => None
  }

  /** `_is_cte_reference`, with the scope the climb finds. */
  predicate CteReference(root: Tree, p: Path)
    requires Valid(root, p)
  {
    BoundBy(At(root, p), ScopeAt(root, p, {}))
  }

  /** The object a table node reads. */
  function ObjectOf(w: World, policy: ReadonlyPolicy, t: Tree): Result<QualifiedRelation, Failure>
    requires t.shape.Table?
  {
    Resolve(w, policy, TextOf(t.shape.catalog), TextOf(t.shape.db), t.shape.name)
  }

  /** What the walk adds at `p`: a refusal, nothing, or one object. */
  function Visit(w: World, policy: ReadonlyPolicy, root: Tree, p: Path): Result<seq<QualifiedRelation>, Failure>
    requires Valid(root, p)
  {
    var t := At(root, p);
    match Refusal(w, t)
    case Some(failure) => Err(failure)
    case None =>
      if !t.shape.Table? || CteReference(root, p) then Ok([])
      else match ObjectOf(w, policy, t)
        case Err(failure) => Err(failure)
        case Ok(relation) => Ok([relation])
  }

  /** The walk in a given order: the first refusal, or all objects. */
  function Visits(w: World, policy: ReadonlyPolicy, root: Tree, order: seq<Path>)
    : Result<seq<QualifiedRelation>, Failure>
    requires forall i :: 0 <= i < |order| ==> Valid(root, order[i])
  {
    if order == [] then Ok([])
    else
      var n := |order| - 1;
      match Visits(w, policy, root, order[..n])
      case Err(failure) => Err(failure)
      case Ok(front) =>
        match Visit(w, policy, root, order[n])
        case Err(failure) => Err(failure)
        case Ok(more) => Ok(front + more)
  }

  /** The library walks exactly the nodes at and below `base`, in some order. */
  ghost predicate WalksFrom(order: seq<Path>, root: Tree, base: Path) {
    && (forall i :: 0 <= i < |order| ==> Valid(root, order[i]) && base <= order[i])
    && (forall p: Path :: Valid(root, p) && base <= p ==> p in order)
  }

  ghost predicate Lawful(w: World) {
    forall root: Tree, base: Path :: Valid(root, base) ==> WalksFrom(w.walk(root, base), root, base)
  }

  ghost function Collected(w: World, policy: ReadonlyPolicy, root: Tree, base: Path)
    : Result<seq<QualifiedRelation>, Failure>
    requires Lawful(w) && Valid(root, base)
  {
    assert WalksFrom(w.walk(root, base), root, base);
    Visits(w, policy, root, w.walk(root, base))
  }

  /** The body of the walk's loop. */
  method VisitNode(w: World, policy: ReadonlyPolicy, root: Tree, p: Path)
    returns (r: Result<seq<QualifiedRelation>, Failure>)
    requires Valid(root, p)
    ensures r == Visit(w, policy, root, p)
  {
    var node := At(root, p);
    var refusal := Refusal(w, node);
    if refusal.Some? {
      return Err(refusal.value);
    }
    if !node.shape.Table? {
      return Ok([]);
    }
    var visible := VisibleCtes(root, p);
    if BoundBy(node, Names(visible)) {
      return Ok([]);
    }
    var found := ObjectOf(w, policy, node);
    if found.Err? {
      return Err(found.error);
    }
    return Ok([found.value]);
  }

  /** `_collect_relations`. */
  method CollectRelations(w: World, policy: ReadonlyPolicy, root: Tree, base: Path)
    returns (r: Result<seq<QualifiedRelation>, Failure>)
    requires Lawful(w) && Valid(root, base)
    ensures r == Collected(w, policy, root, base)
  {
    assert WalksFrom(w.walk(root, base), root, base);
    var order := w.walk(root, base);
    var relations: seq<QualifiedRelation> := [];
    for i := 0 to |order|
      invariant Visits(w, policy, root, order[..i]) == Ok(relations)
    {
      VisitsStep(w, policy, root, order, i);
      var more := VisitNode(w, policy, root, order[i]);
      if more.Err? {
        VisitsStop(w, policy, root, order, i + 1);
        return Err(more.error);
      }
      relations := relations + more.value;
    }
    assert order[..|order|] == order;
    return Ok(relations);
  }

  lemma VisitsStep(w: World, policy: ReadonlyPolicy, root: Tree, order: seq<Path>, i: nat)
    requires forall k :: 0 <= k < |order| ==> Valid(root, order[k])
    requires i < |order| && Visits(w, policy, root, order[..i]).Ok?
    ensures Visits(w, policy, root, order[..i + 1])
            == match Visit(w, policy, root, order[i])
               case Err(failure) => Err(failure)
               case Ok(more) => Ok(Visits(w, policy, root, order[..i]).value + more)
  {
    assert order[..i + 1][..i] == order[..i];
  }

  /** A refusal inside the walk is the outcome of the walk. */
  lemma {:induction false} VisitsStop(w: World, policy: ReadonlyPolicy, root: Tree, order: seq<Path>, k: nat)
    requires forall i :: 0 <= i < |order| ==> Valid(root, order[i])
    requires k <= |order| && Visits(w, policy, root, order[..k]).Err?
    ensures Visits(w, policy, root, order) == Visits(w, policy, root, order[..k])
    decreases |order|
  {
    if k == |order| {
      assert order[..k] == order;
    } else {
      var front := order[..|order| - 1];
      assert front[..k] == order[..k];
      VisitsStop(w, policy, root, front, k);
    }
  }

  // ---- proofs by syntax tree ----

  type Proven = Option<(string, seq<QualifiedRelation>)>

  const SHOW_LISTINGS: set<string> :=
    {"TABLES", "TABLE STATUS", "CREATE DATABASE", "PROCESSLIST", "VARIABLES", "STATUS", "GRANTS", "ENGINES", "CHARSET",
     "CHARACTER SET", "COLLATION", "PLUGINS", "WARNINGS"}

  const SHOW_RELATION_READS: set<string> := {"COLUMNS", "INDEX", "CREATE TABLE", "CREATE VIEW"}

  function Underscored(s: string): string {
    seq(|s|, i requires 0 <= i < |s| => if s[i] == ' ' then '_' else s[i])
  }

  /** `_prove_show`, given what the walk collected. */
  function ShowOutcome(w: World, policy: ReadonlyPolicy, t: Tree, relations: seq<QualifiedRelation>)
    : Result<Proven, Failure>
    requires t.shape.Show?
  {
    var kind := w.u.upper(t.shape.name);
    var family := "show." + Underscored(w.u.lower(kind));
    var database := TextOf(t.shape.db);
    if kind == "DATABASES" then
      if Internal(w, database) then Ok(Some((family, relations))) else Err(Reject(ExternalCatalog))
    else if kind in SHOW_LISTINGS then Ok(Some((family, relations)))
    else if kind in SHOW_RELATION_READS then
      if t.shape.target.None? then Ok(None)
      else match Resolve(w, policy, "", database, t.shape.target.value)
        case Err(failure) => Err(failure)
        case Ok(relation) => Ok(Some((family, relations + [relation])))
    else Ok(None)
  }

  /** Which subtree a statement's proof walks, and what a refusal before the walk says. */
  datatype Route = Walk(base: Path, family: string) | WalkShow | NoRoute | Stop(failure: Failure)

  /** The shape decisions of `_prove_ast` and `_prove_describe`. */
  function RouteOf(w: World, t: Tree, keyword: string): Route {
    match t.shape
    case Query => Walk([], "query")
    case Show(_, _, _) => WalkShow
    case Describe(inner, style, extras) =>
      var child := if inner.Some? && inner.value < |t.children| then Some(t.children[inner.value]) else None;
      if (keyword == "DESC" || keyword == "DESCRIBE") && child.Some? && child.value.shape.Table? then
        if TextOf(style) != "" || extras then NoRoute else Walk([], "describe")
      else if keyword != "EXPLAIN" || child.None? then NoRoute
      else if child.value.write then Stop(Reject(NotReadonly))
      else if child.value.shape.Query? then
        if style.None? then Walk([inner.value], "explain")
        else if w.u.upper(style.value) == "ANALYZE" then Walk([inner.value], "explain.analyze")
        else NoRoute
      else NoRoute
    case _ => NoRoute
  }

  ghost function AstProof(w: World, policy: ReadonlyPolicy, t: Tree, keyword: string): Result<Proven, Failure>
    requires Lawful(w)
  {
    match RouteOf(w, t, keyword)
    case NoRoute => Ok(None)
    case Stop(failure) => Err(failure)
    case WalkShow =>
      (match Collected(w, policy, t, [])
       case Err(failure) => Err(failure)
       case Ok(relations) => ShowOutcome(w, policy, t, relations))
    case Walk(base, family) =>
      RouteValid(w, t, keyword);
      match Collected(w, policy, t, base)
      case Err(failure) => Err(failure)
      case Ok(relations) => Ok(Some((family, relations)))
  }

  lemma RouteValid(w: World, t: Tree, keyword: string)
    ensures RouteOf(w, t, keyword).Walk? ==> Valid(t, RouteOf(w, t, keyword).base)
    ensures RouteOf(w, t, keyword).WalkShow? ==> t.shape.Show?
  {
  }

  /** `_prove_ast`. */
  method ProveAst(w: World, policy: ReadonlyPolicy, t: Tree, keyword: string) returns (r: Result<Proven, Failure>)
    requires Lawful(w)
    ensures r == AstProof(w, policy, t, keyword)
  {
    RouteValid(w, t, keyword);
    match RouteOf(w, t, keyword)
    case NoRoute => return Ok(None);
    case Stop(failure) => return Err(failure);
    case WalkShow =>
      var collected := CollectRelations(w, policy, t, []);
      if collected.Err? {
        return Err(collected.error);
      }
      return ShowOutcome(w, policy, t, collected.value);
    case Walk(base, family) =>
      var collected := CollectRelations(w, policy, t, base);
      if collected.Err? {
        return Err(collected.error);
      }
      return Ok(Some((family, collected.value)));
  }

  // ---- parsing ----

  function KeptStatements(statements: seq<Option<Tree>>): seq<Tree> {
    if statements == [] then []
    else (if statements[0].Some? && !statements[0].value.semicolon then [statements[0].value] else [])
         + KeptStatements(statements[1..])
  }

  /** `_parse_statement`: the one statement, or nothing where the parser does not know it. */
  function ParseStatement(w: World, text: string): Result<Option<Tree>, Failure> {
    match w.parse(text)
    case SyntaxError => Ok(None)
    case ParserFailure => Err(Reject(Unparsable))
    case Statements(statements) =>
      var kept := KeptStatements(statements);
      if |kept| == 1 then Ok(Some(kept[0])) else Err(Reject(MultipleStatements))
  }

  // ---- proofs by the statement list ----

  /** The statement tokens with their text, as the list matches them. */
  function InputOf(w: World, scan: Tokens.TokenScan): Input {
    Input(ToksOf(scan.raw, Tokens.StatementTokens(scan)), w.u.upper)
  }

  function ToksOf(raw: seq<byte>, tokens: seq<Tokens.SqlToken>): (r: seq<Tok>)
    ensures |r| == |tokens|
    ensures forall i :: 0 <= i < |r| ==>
              r[i].startByte == tokens[i].startByte && r[i].endByte == tokens[i].endByte && r[i].kind == tokens[i].kind
  {
    if tokens == [] then []
    else
      var t := tokens[0];
      [Tok(t.kind, TextOf(Tokens.TextBetween(raw, t.startByte, t.endByte)), t.startByte, t.endByte)]
          + ToksOf(raw, tokens[1..])
  }

  function ResolveAll(w: World, policy: ReadonlyPolicy, refs: seq<RelationRef>)
    : Result<seq<QualifiedRelation>, Failure> {
    if refs == [] then Ok([])
    else match Resolve(w, policy, refs[0].catalog, refs[0].database, refs[0].name)
      case Err(failure) => Err(failure)
      case Ok(first) =>
        match ResolveAll(w, policy, refs[1..])
        case Err(failure) => Err(failure)
        case Ok(rest) => Ok([first] + rest)
  }

  /** `_prove_statement_list`. */
  ghost function ListProof(w: World, policy: ReadonlyPolicy, scan: Tokens.TokenScan, m: StatementMatch)
    : Result<seq<QualifiedRelation>, Failure>
    requires Lawful(w)
  {
    if m.innerQuery.Some? then
      match ParseStatement(w, TextOf(Tokens.TextBetween(scan.raw, m.innerQuery.value.0, m.innerQuery.value.1)))
      case Err(failure) => Err(failure)
      case Ok(inner) =>
        if inner.Some? && inner.value.write then Err(Reject(NotReadonly))
        else if inner.None? || !inner.value.shape.Query? then Err(Reject(NotSupported))
        else Collected(w, policy, inner.value, [])
    else ResolveAll(w, policy, m.relations)
  }

  method ProveStatementList(w: World, policy: ReadonlyPolicy, scan: Tokens.TokenScan, m: StatementMatch)
    returns (r: Result<seq<QualifiedRelation>, Failure>)
    requires Lawful(w)
    ensures r == ListProof(w, policy, scan, m)
  {
    if m.innerQuery.Some? {
      var parsed := ParseStatement(w, TextOf(Tokens.TextBetween(scan.raw, m.innerQuery.value.0, m.innerQuery.value.1)));
      if parsed.Err? {
        return Err(parsed.error);
      }
      if parsed.value.Some? && parsed.value.value.write {
        return Err(Reject(NotReadonly));
      }
      if parsed.value.None? || !parsed.value.value.shape.Query? {
        return Err(Reject(NotSupported));
      }
      r := CollectRelations(w, policy, parsed.value.value, []);
    } else {
      r := ResolveAll(w, policy, m.relations);
    }
  }

  // ---- the verdict ----

  function TokenRejection(reason: Tokens.Reason): Rejection {
    match reason
    case Empty => Unparsable
    case TooLong => Unparsable
    case Unterminated => Unparsable
    case InvalidUtf8 => AmbiguousCharacter
    case Bom => AmbiguousCharacter
    case ControlCharacter => AmbiguousCharacter
    case AmbiguousPunctuation => AmbiguousCharacter
    case HintComment => HintPresent
    case MultiStatement => MultipleStatements
    case IntoOutfile => NotReadonly
  }

  /** `dict.fromkeys`: each object once, where it first appears. */
  function Distinct(relations: seq<QualifiedRelation>): (r: seq<QualifiedRelation>)
    ensures forall x :: x in r <==> x in relations
    ensures forall i, j :: 0 <= i < j < |r| ==> r[i] != r[j]
  {
    if relations == [] then []
    else
      var last := relations[|relations| - 1];
      var front := Distinct(relations[..|relations| - 1]);
      assert relations == relations[..|relations| - 1] + [last];
      if last in front then front else front + [last]
  }

  /** The last step: the blocklist, then the proof. */
  function Conclude(policy: ReadonlyPolicy, path: ProofPath, family: string, relations: seq<QualifiedRelation>)
    : Result<ReadonlyProof, Failure> {
    if exists i :: 0 <= i < |relations| && relations[i] in policy.blocked then Err(Reject(BlockedRelation))
    else Ok(ReadonlyProof(path, family, Distinct(relations)))
  }

  /** Everything before the blocklist: by which route, as what family, over which objects. */
  ghost function Established(w: World, policy: ReadonlyPolicy, raw: seq<byte>, expected: string)
    : Result<(ProofPath, string, seq<QualifiedRelation>), Failure>
    requires Lawful(w)
  {
    if w.sha256(raw) != expected then Err(Reject(HashMismatch))
    else match Tokens.Scan(w.u, raw)
      case Err(reason) => Err(Reject(TokenRejection(reason)))
      case Ok(scan) =>
        match ParseStatement(w, StatementText(scan))
        case Err(failure) => Err(failure)
        case Ok(root) =>
          match (if root.Some? then AstProof(w, policy, root.value, Keyword(w, scan)) else Ok(None))
          case Err(failure) => Err(failure)
          case Ok(Some(proven)) => Ok((Ast, proven.0, proven.1))
          case Ok(None) => ListEstablished(w, policy, scan, root)
  }

  /** A match in the statement list, if there is one. */
  ghost function ListMatch(src: Input): (m: Option<StatementMatch>)
    ensures m.Some? ==> List.Matches(List.READONLY_STATEMENTS, src, m.value)
    ensures m.None? ==> forall other :: !List.Matches(List.READONLY_STATEMENTS, src, other)
  {
    if exists m :: List.Matches(List.READONLY_STATEMENTS, src, m) then
      var m :| List.Matches(List.READONLY_STATEMENTS, src, m);
      Some(m)
    else None
  }

  /** The fallback to the statement list. */
  ghost function ListEstablished(w: World, policy: ReadonlyPolicy, scan: Tokens.TokenScan, root: Option<Tree>)
    : Result<(ProofPath, string, seq<QualifiedRelation>), Failure>
    requires Lawful(w)
  {
    match ListMatch(InputOf(w, scan))
    case None =>
      Err(Reject(if root.Some? && root.value.write && !root.value.command then NotReadonly else NotSupported))
    case Some(m) =>
      match ListProof(w, policy, scan, m)
      case Err(failure) => Err(failure)
      case Ok(relations) => Ok((StatementListPath, m.family, relations))
  }

  function StatementText(scan: Tokens.TokenScan): string {
    var tokens := Tokens.StatementTokens(scan);
    if tokens == [] then "" else TextOf(Tokens.TextBetween(scan.raw, tokens[0].startByte, tokens[|tokens| - 1].endByte))
  }

  function Keyword(w: World, scan: Tokens.TokenScan): string {
    var tokens := Tokens.StatementTokens(scan);
    if tokens == [] then "" else w.u.upper(TextOf(Tokens.TextBetween(scan.raw, tokens[0].startByte, tokens[0].endByte)))
  }

  /** The verdict on a submitted text. */
  ghost function Verdict(w: World, policy: ReadonlyPolicy, raw: seq<byte>, expected: string)
    : Result<ReadonlyProof, Failure>
    requires Lawful(w)
  {
    match Established(w, policy, raw, expected)
    case Err(failure) => Err(failure)
    case Ok((path, family, relations)) => Conclude(policy, path, family, relations)
  }

  method FallBack(w: World, policy: ReadonlyPolicy, scan: Tokens.TokenScan, root: Option<Tree>)
    returns (r: Result<(ProofPath, string, seq<QualifiedRelation>), Failure>)
    requires Lawful(w)
    ensures r == ListEstablished(w, policy, scan, root)
  {
    var m := StatementListExtraction.MatchShipped(InputOf(w, scan));
    assert m == ListMatch(InputOf(w, scan));
    if m.None? {
      return Err(Reject(if root.Some? && root.value.write && !root.value.command then NotReadonly else NotSupported));
    }
    var listed := ProveStatementList(w, policy, scan, m.value);
    if listed.Err? {
      return Err(listed.error);
    }
    return Ok((StatementListPath, m.value.family, listed.value));
  }

  /** `verify_confirmed_readonly`. */
  method VerifyConfirmedReadonly(w: World, policy: ReadonlyPolicy, raw: seq<byte>, expected: string)
    returns (r: Result<ReadonlyProof, Failure>)
    requires Lawful(w)
    ensures r == Verdict(w, policy, raw, expected)
  {
    if w.sha256(raw) != expected {
      return Err(Reject(HashMismatch));
    }
    var scanned := Scanner.ScanSql(w.u, raw);
    if scanned.Err? {
      return Err(Reject(TokenRejection(scanned.error)));
    }
    var scan := scanned.value;
    var parsed := ParseStatement(w, StatementText(scan));
    if parsed.Err? {
      return Err(parsed.error);
    }
    var root := parsed.value;
    if root.Some? {
      var proven := ProveAst(w, policy, root.value, Keyword(w, scan));
      if proven.Err? {
        return Err(proven.error);
      }
      if proven.value.Some? {
        return Conclude(policy, Ast, proven.value.value.0, proven.value.value.1);
      }
    }
    var listed := FallBack(w, policy, scan, root);
    if listed.Err? {
      return Err(listed.error);
    }
    return Conclude(policy, listed.value.0, listed.value.1, listed.value.2);
  }
}
