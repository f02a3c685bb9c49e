/**
 The shipped list of read-only statements and the complete match against a list. A statement
 that the list matches in two different ways is refused like one it does not match.
 */
module StatementList {
  import opened Wrappers
  import opened ReadonlyStatements
  import opened StatementTargets

  // ---- shared pieces ----

  function FromOrIn(): Element { OneOf([Alternative([Kw(["FROM"])]), Alternative([Kw(["IN"])])]) }

  function OptDb(): Element { Opt([FromOrIn(), Name("database", 1, 1)]) }

  function OptFromDb(): Element { Opt([Kw(["FROM"]), Name("database", 1, 1)]) }

  function Relation(): Element { Name("relation", 1, 3) }

  function LiteralOrInt(): Element { OneOf([Alternative([Str(None)]), Alternative([Int])]) }

  function WhereRegistered(columns: set<string>): Element {
    Opt([Kw(["WHERE"]), Column(columns), Sym("="), LiteralOrInt(),
         Many([Kw(["AND"]), Column(columns), Sym("="), LiteralOrInt()])])
  }

  // ---- the list ----

  function ShowCreateMaterializedView(): ReadonlyStatement {
    ReadonlyStatement("show.create_materialized_view", [Kw(["SHOW", "CREATE", "MATERIALIZED", "VIEW"]), Relation()],
                      OneRelation)
  }

  function MaterializedViewFilter(): Element {
    OneOf([Alternative([Kw(["LIKE"]), Str(None)]),
           Alternative([Kw(["WHERE", "NAME"]), Sym("="), Str(Some("relation_name"))]),
           Alternative([Kw(["WHERE", "NAME", "LIKE"]), Str(None)])])
  }

  function ShowMaterializedViews(): ReadonlyStatement {
    ReadonlyStatement("show.materialized_views",
                      [Kw(["SHOW", "MATERIALIZED", "VIEWS"]), OptDb(), Opt([MaterializedViewFilter()])],
                      OptionalRelation)
  }

  function ShowPartitions(): ReadonlyStatement {
    ReadonlyStatement("show.partitions",
                      [Kw(["SHOW"]), Opt([Kw(["TEMPORARY"])]), Kw(["PARTITIONS", "FROM"]), Relation()], OneRelation)
  }

  function ShowTablet(): ReadonlyStatement {
    ReadonlyStatement("show.tablet", [Kw(["SHOW", "TABLET", "FROM"]), Relation()], OneRelation)
  }

  function ShowTabletId(): ReadonlyStatement {
    ReadonlyStatement("show.tablet_id", [Kw(["SHOW", "TABLET"]), Int], NoTarget)
  }

  function DatabaseOrRelation(): Element {
    OneOf([Alternative([Name("database", 1, 1)]), Alternative([Name("relation", 2, 2)])])
  }

  function ShowData(): ReadonlyStatement {
    ReadonlyStatement("show.data", [Kw(["SHOW", "DATA"]), Opt([Kw(["FROM"]), DatabaseOrRelation()])], OptionalRelation)
  }

  function ShowLoad(): ReadonlyStatement {
    ReadonlyStatement("show.load", [Kw(["SHOW", "LOAD"]), OptFromDb()], NoTarget)
  }

  function ShowRoutineLoad(): ReadonlyStatement {
    ReadonlyStatement("show.routine_load", [Kw(["SHOW", "ROUTINE", "LOAD"]), OptFromDb()], NoTarget)
  }

  function ShowFunctions(): ReadonlyStatement {
    ReadonlyStatement("show.functions",
                      [Kw(["SHOW"]), Opt([Kw(["FULL"])]), Kw(["FUNCTIONS"]), OptDb(), Opt([Kw(["LIKE"]), Str(None)])],
                      NoTarget)
  }

  function ShowCatalogs(): ReadonlyStatement {
    ReadonlyStatement("show.catalogs", [Kw(["SHOW", "CATALOGS"])], NoTarget)
  }

  function ShowFrontends(): ReadonlyStatement {
    ReadonlyStatement("show.frontends", [Kw(["SHOW", "FRONTENDS"])], NoTarget)
  }

  function ShowBackends(): ReadonlyStatement {
    ReadonlyStatement("show.backends", [Kw(["SHOW", "BACKENDS"])], NoTarget)
  }

  function ShowResourceGroups(): ReadonlyStatement {
    ReadonlyStatement("show.resource_groups", [Kw(["SHOW", "RESOURCE", "GROUPS"])], NoTarget)
  }

  function ShowProc(): ReadonlyStatement {
    ReadonlyStatement("show.proc", [Kw(["SHOW", "PROC"]), Str(None)], NoTarget)
  }

  function ShowProfilelist(): ReadonlyStatement {
    ReadonlyStatement("show.profilelist", [Kw(["SHOW", "PROFILELIST"]), Opt([Kw(["LIMIT"]), Int])], NoTarget)
  }

  function AlterKind(): Element {
    OneOf([Alternative([Kw(["COLUMN"])]), Alternative([Kw(["ROLLUP"])]), Alternative([Kw(["MATERIALIZED", "VIEW"])])])
  }

  function ShowAlterTable(): ReadonlyStatement {
    ReadonlyStatement("show.alter_table",
                      [Kw(["SHOW", "ALTER", "TABLE"]), AlterKind(), OptDb(),
                       Opt([Kw(["WHERE", "TABLENAME"]), Sym("="), Str(Some("relation_name"))])], OptionalRelation)
  }

  function AdminShowReplicaStatus(): ReadonlyStatement {
    ReadonlyStatement("admin.show_replica_status",
                      [Kw(["ADMIN", "SHOW", "REPLICA", "STATUS", "FROM"]), Relation()], OneRelation)
  }

  function AdminShowReplicaDistribution(): ReadonlyStatement {
    ReadonlyStatement("admin.show_replica_distribution",
                      [Kw(["ADMIN", "SHOW", "REPLICA", "DISTRIBUTION", "FROM"]), Relation()], OneRelation)
  }

  function AnalyzeProfile(): ReadonlyStatement {
    ReadonlyStatement("analyze.profile", [Kw(["ANALYZE", "PROFILE", "FROM"]), Str(None)], NoTarget)
  }

  function ExplainStyle(): Element {
    OneOf([Alternative([Kw(["LOGICAL"])]), Alternative([Kw(["VERBOSE"])]), Alternative([Kw(["COSTS"])])])
  }

  function ExplainModifier(): ReadonlyStatement {
    ReadonlyStatement("explain.modifier", [Kw(["EXPLAIN"]), ExplainStyle(), Rest("inner_query")], InnerQuery)
  }

  function ShowRunningQueries(): ReadonlyStatement {
    ReadonlyStatement("show.running_queries", [Kw(["SHOW", "RUNNING", "QUERIES"])], NoTarget)
  }

  function ShowAnalyzeStatus(): ReadonlyStatement {
    ReadonlyStatement("show.analyze_status",
                      [Kw(["SHOW", "ANALYZE", "STATUS"]),
                       WhereRegistered({"ID", "DATABASE", "TABLE", "TYPE", "STATUS"})], NoTarget)
  }

  function ShowStatsMeta(): ReadonlyStatement {
    ReadonlyStatement("show.stats_meta",
                      [Kw(["SHOW", "STATS", "META"]), WhereRegistered({"DATABASE", "TABLE", "TYPE"})], NoTarget)
  }

  function ShowDynamicPartitionTables(): ReadonlyStatement {
    ReadonlyStatement("show.dynamic_partition_tables", [Kw(["SHOW", "DYNAMIC", "PARTITION", "TABLES"]), OptDb()],
                      NoTarget)
  }

  function ShowDelete(): ReadonlyStatement {
    ReadonlyStatement("show.delete", [Kw(["SHOW", "DELETE"]), OptFromDb()], NoTarget)
  }

  function ShowExport(): ReadonlyStatement {
    ReadonlyStatement("show.export", [Kw(["SHOW", "EXPORT"]), OptFromDb()], NoTarget)
  }

  function ShowTransaction(): ReadonlyStatement {
    ReadonlyStatement("show.transaction",
                      [Kw(["SHOW", "TRANSACTION"]), OptFromDb(), Kw(["WHERE", "ID"]), Sym("="), Int], NoTarget)
  }

  function ShowComputeNodes(): ReadonlyStatement {
    ReadonlyStatement("show.compute_nodes", [Kw(["SHOW", "COMPUTE", "NODES"])], NoTarget)
  }

  function ShowRoles(): ReadonlyStatement {
    ReadonlyStatement("show.roles", [Kw(["SHOW", "ROLES"])], NoTarget)
  }

  function ShowCreateRoutineLoad(): ReadonlyStatement {
    ReadonlyStatement("show.create_routine_load", [Kw(["SHOW", "CREATE", "ROUTINE", "LOAD"]), Name("job", 1, 2)],
                      NoTarget)
  }

  function DescribeKeyword(): Element { OneOf([Alternative([Kw(["DESC"])]), Alternative([Kw(["DESCRIBE"])])]) }

  function DescribeAll(): ReadonlyStatement {
    ReadonlyStatement("describe.all", [DescribeKeyword(), Relation(), Kw(["ALL"])], OneRelation)
  }

  const READONLY_STATEMENTS: seq<ReadonlyStatement> :=
    [ShowCreateMaterializedView(), ShowMaterializedViews(), ShowPartitions(), ShowTablet(), ShowTabletId(),
     ShowData(), ShowLoad(), ShowRoutineLoad(), ShowFunctions(), ShowCatalogs(), ShowFrontends(),
     ShowBackends(), ShowResourceGroups(), ShowProc(), ShowProfilelist(), ShowAlterTable(),
     AdminShowReplicaStatus(), AdminShowReplicaDistribution(), AnalyzeProfile(), ExplainModifier(),
     ShowRunningQueries(), ShowAnalyzeStatus(), ShowStatsMeta(), ShowDynamicPartitionTables(), ShowDelete(),
     ShowExport(), ShowTransaction(), ShowComputeNodes(), ShowRoles(), ShowCreateRoutineLoad(), DescribeAll()]

  // ---- the complete match ----

  /** Some entry matches the whole input, and `m` is what that match extracts. */
  ghost predicate Matches(table: seq<ReadonlyStatement>, src: Input, m: StatementMatch) {
    exists i, caps: Captures :: MatchesBy(table, i, src, caps) && m == ToMatch(table[i], caps)
  }

  ghost predicate MatchesBy(table: seq<ReadonlyStatement>, i: int, src: Input, caps: Captures) {
    0 <= i < |table| && DerivesAll(table[i].pattern, src, 0, |src.tokens|, caps)
  }

  /** Matches a statement against a list: the one match there is, or None where there is none
      or where two differ. */
  method MatchStatement(table: seq<ReadonlyStatement>, src: Input) returns (r: Option<StatementMatch>)
    ensures r.Some? ==> Matches(table, src, r.value) && forall m :: Matches(table, src, m) ==> m == r.value
    ensures r.None? ==> forall m :: Matches(table, src, m) ==> exists other :: Matches(table, src, other) && other != m
  {
    var matches: set<StatementMatch> := {};
    for i := 0 to |table|
      invariant forall m :: m in matches ==> Matches(table, src, m)
      invariant forall j, caps: Captures :: 0 <= j < i && MatchesBy(table, j, src, caps) ==>
                  ToMatch(table[j], caps) in matches
    {
      var more := MatchEntry(table, i, src);
      matches := matches + more;
    }
    assert forall m :: Matches(table, src, m) ==> m in matches;
    if |matches| != 1 {
      forall m | Matches(table, src, m)
        ensures exists other :: Matches(table, src, other) && other != m
      {
        assert |matches - {m}| == |matches| - 1 != 0;
        var other :| other in matches - {m};
      }
      return None;
    }
    OnlyOne(matches);
    var m :| m in matches;
    return Some(m);
  }

  /** The extractions of one entry's complete matches. */
  method MatchEntry(table: seq<ReadonlyStatement>, i: nat, src: Input) returns (matches: set<StatementMatch>)
    requires i < |table|
    ensures forall m :: m in matches ==> Matches(table, src, m)
    ensures forall caps: Captures :: MatchesBy(table, i, src, caps) ==> ToMatch(table[i], caps) in matches
  {
    matches := {};
    var found := MatchSequence(table[i].pattern, src, 0, []);
    for k := 0 to |found|
      invariant forall m :: m in matches ==> Matches(table, src, m)
      invariant forall l :: 0 <= l < k && found[l].0 == |src.tokens| ==> ToMatch(table[i], found[l].1) in matches
    {
      if found[k].0 == |src.tokens| {
        WholeYield(table, i, src, found[k]);
        matches := matches + {ToMatch(table[i], found[k].1)};
      }
    }
    forall caps: Captures | MatchesBy(table, i, src, caps)
      ensures ToMatch(table[i], caps) in matches
    {
      assert (|src.tokens|, [] + caps) in found && [] + caps == caps;
      var l :| 0 <= l < |found| && found[l] == (|src.tokens|, caps);
    }
  }

  lemma WholeYield(table: seq<ReadonlyStatement>, i: nat, src: Input, y: Yield)
    requires i < |table| && DerivedAll(y, table[i].pattern, src, 0, []) && y.0 == |src.tokens|
    ensures Matches(table, src, ToMatch(table[i], y.1))
  {
  }

  lemma OnlyOne(s: set<StatementMatch>)
    requires |s| == 1
    ensures s != {} && forall a, b :: a in s && b in s ==> a == b
  {
    var a :| a in s;
    assert |s - {a}| == 0;
  }
}
