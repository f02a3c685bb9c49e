/**
 A parsed statement as an arbitrary tree, and which common table expressions a table reference
 in it can see: once by climbing from the reference towards the root, as the guard does, and
 once by resolving names from the root down.
 */
module SqlTree {
  import opened Wrappers

  /** What the guard asks of a node's class and arguments. */
  datatype Shape =
    | Query
    | Show(name: string, db: Option<string>, target: Option<string>)
    | Describe(inner: Option<nat>, style: Option<string>, extras: bool)
    | With(recursive: bool)
    | Cte(alias: string)
    | Table(plain: bool, catalog: Option<string>, db: Option<string>, name: string)
    | Column(columnCatalog: string)
    | Lateral(overSubquery: bool)
    | Dot(intoFunction: bool)
    | TableFunction
    | Other

  /** `write` marks the classes of `_WRITE_NODES`; `withAt` is the child in the `with_` slot.
      The children of a `With` are its CTEs. */
  datatype Tree = Node(shape: Shape, write: bool, command: bool, semicolon: bool,
                       withAt: Option<nat>, children: seq<Tree>)

  /** A node's place: the child number to take at each level from the root. */
  type Path = seq<nat>

  predicate Valid(t: Tree, p: Path) {
    p == [] || (p[0] < |t.children| && Valid(t.children[p[0]], p[1..]))
  }

  function At(t: Tree, p: Path): Tree
    requires Valid(t, p)
  {
    if p == [] then t else At(t.children[p[0]], p[1..])
  }

  lemma {:induction false} ValidAppend(t: Tree, p: Path, q: Path)
    ensures Valid(t, p + q) <==> Valid(t, p) && Valid(At(t, p), q)
    ensures Valid(t, p + q) ==> At(t, p + q) == At(At(t, p), q)
    decreases |p|
  {
    if p == [] {
      assert p + q == q;
    } else {
      assert (p + q)[1..] == p[1..] + q;
      if p[0] < |t.children| {
        ValidAppend(t.children[p[0]], p[1..], q);
      }
    }
  }

  // ---- names in scope ----

  function Alias(t: Tree): string { if t.shape.Cte? then t.shape.alias else "" }

  function Aliases(ctes: seq<Tree>): (r: seq<string>)
    ensures |r| == |ctes| && forall i :: 0 <= i < |r| ==> r[i] == Alias(ctes[i])
  {
    if ctes == [] then [] else [Alias(ctes[0])] + Aliases(ctes[1..])
  }

  /** The CTEs of the `with_` argument, unless the argument is missing or is child `i` itself. */
  function OwnCtes(t: Tree, i: nat): seq<Tree> {
    if t.withAt.Some? && t.withAt.value != i && t.withAt.value < |t.children| && t.children[t.withAt.value].shape.With?
    then t.children[t.withAt.value].children else []
  }

  /** The names a parent makes visible to its child number `i`. */
  function Introduced(t: Tree, i: nat): seq<string>
    requires i < |t.children|
  {
    if t.shape.With? then Aliases(if t.shape.recursive then t.children[..i + 1] else t.children[..i])
    else Aliases(OwnCtes(t, i))
  }

  function Names(s: seq<string>): set<string> { set x | x in s }

  lemma NamesAppend(a: seq<string>, b: seq<string>)
    ensures Names(a + b) == Names(a) + Names(b)
  {
  }

  /** The names in scope at `p`, from the root down. */
  function ScopeAt(t: Tree, p: Path, env: set<string>): set<string>
    requires Valid(t, p)
  {
    if p == [] then env
    else ScopeAt(t.children[p[0]], p[1..], env + Names(Introduced(t, p[0])))
  }

  lemma {:induction false} ScopeStep(t: Tree, p: Path, i: nat, env: set<string>)
    requires Valid(t, p) && i < |At(t, p).children| && Valid(t, p + [i])
    ensures ScopeAt(t, p + [i], env) == ScopeAt(t, p, env) + Names(Introduced(At(t, p), i))
    decreases |p|
  {
    if p == [] {
      assert p + [i] == [i] && [i][1..] == [];
    } else {
      assert (p + [i])[1..] == p[1..] + [i];
      ScopeStep(t.children[p[0]], p[1..], i, env + Names(Introduced(t, p[0])));
    }
  }

  /** One level up: the parent knows the node as a child, and the scope loses its names. */
  lemma ClimbStep(root: Tree, child: Path)
    requires Valid(root, child) && child != []
    ensures var i, parent := child[|child| - 1], child[..|child| - 1];
            && Valid(root, parent) && i < |At(root, parent).children|
            && ScopeAt(root, child, {}) == ScopeAt(root, parent, {}) + Names(Introduced(At(root, parent), i))
  {
    var i, parent := child[|child| - 1], child[..|child| - 1];
    assert child == parent + [i];
    ValidAppend(root, parent, [i]);
    ScopeStep(root, parent, i, {});
  }

  /** `_visible_ctes`: climbs from the node to the root, collecting names on the way. */
  method VisibleCtes(root: Tree, p: Path) returns (visible: seq<string>)
    requires Valid(root, p)
    ensures Names(visible) == ScopeAt(root, p, {})
  {
    visible := [];
    var child := p;
    assert p[|p|..] == [];
    while child != []
      invariant child <= p
      invariant Valid(root, child)
      invariant ScopeAt(root, p, {}) == ScopeAt(root, child, {}) + Names(visible)
      decreases |child|
    {
      var i, parent := child[|child| - 1], child[..|child| - 1];
      ClimbStep(root, child);
      var more := Introduced(At(root, parent), i);
      NamesAppend(visible, more);
      visible := visible + more;
      child := parent;
    }
  }

  // ---- the top-down resolver ----

  /** A reference without database and catalog whose name is in scope is a CTE. */
  predicate BoundBy(t: Tree, env: set<string>) {
    t.shape.Table? && t.shape.db.None? && t.shape.catalog.None? && t.shape.name in env
  }

  /** The node has a WITH clause, as its child in the `with_` slot. */
  predicate HasClause(t: Tree) {
    t.withAt.Some? && t.withAt.value < |t.children| && t.children[t.withAt.value].shape.With?
  }

  /** All names that a clause defines. */
  function Defined(clause: Tree): set<string> {
    set cte | cte in clause.children :: Alias(cte)
  }

  /** The places, below `here`, of the table references that name resolution leaves unbound. The clause
      of a node is resolved in the scope around the node, everything else in the node sees what the
      clause defines. */
  function Unbound(t: Tree, env: set<string>, here: Path): seq<Path>
    decreases t, 1
  {
    (if t.shape.Table? && (t.shape.db.Some? || t.shape.catalog.Some? || t.shape.name !in env) then [here] else [])
    + (if t.shape.With? then UnboundCtes(t.children, t.shape.recursive, env, here, 0)
       else UnboundChildren(t, env, here, 0))
  }

  /** Inside the clause each CTE sees the ones before it, and itself if the clause is recursive. */
  function UnboundCtes(ctes: seq<Tree>, recursive: bool, env: set<string>, here: Path, i: nat): seq<Path>
    decreases ctes, 0
  {
    if ctes == [] then []
    else
      var behind := env + {Alias(ctes[0])};
      Unbound(ctes[0], if recursive then behind else env, here + [i])
      + UnboundCtes(ctes[1..], recursive, behind, here, i + 1)
  }

  function UnboundChildren(t: Tree, env: set<string>, here: Path, i: nat): seq<Path>
    requires i <= |t.children|
    decreases t, 0, |t.children| - i
  {
    if i == |t.children| then []
    else Unbound(t.children[i], Inside(t, env, i), here + [i]) + UnboundChildren(t, env, here, i + 1)
  }

  /** What child `i` of a node sees. */
  function Inside(t: Tree, env: set<string>, i: nat): set<string> {
    if HasClause(t) && i != t.withAt.value then env + Defined(t.children[t.withAt.value]) else env
  }

  lemma AliasNames(ctes: seq<Tree>)
    ensures Names(Aliases(ctes)) == set cte | cte in ctes :: Alias(cte)
  {
    forall cte | cte in ctes
      ensures Alias(cte) in Aliases(ctes)
    {
      var k :| 0 <= k < |ctes| && ctes[k] == cte;
      assert Aliases(ctes)[k] == Alias(cte);
    }
  }

  /** What the climb collects from a node for its child is what the resolver adds for it. */
  lemma InsideIs(t: Tree, env: set<string>, i: nat)
    ensures Inside(t, env, i) == env + Names(Aliases(OwnCtes(t, i)))
  {
    AliasNames(OwnCtes(t, i));
  }

  /** `p` leads from `here` to a table reference that its scope does not bind. */
  predicate UnboundAt(t: Tree, env: set<string>, here: Path, p: Path) {
    && here <= p && Valid(t, p[|here|..])
    && At(t, p[|here|..]).shape.Table?
    && !BoundBy(At(t, p[|here|..]), ScopeAt(t, p[|here|..], env))
  }

  /** `p` goes on from `here` through child `k` of those numbered from `i`. */
  predicate Through(here: Path, i: nat, n: nat, p: Path) {
    here < p && i <= p[|here|] < i + n
  }

  /** What `UnboundAt` says one level down. */
  lemma BelowHere(t: Tree, env: set<string>, here: Path, p: Path)
    requires here <= p
    ensures p == here ==> p[|here|..] == []
    ensures p != here ==>
              var i := p[|here|];
              here + [i] <= p && p[|here|..][0] == i && p[|here|..][1..] == p[|here| + 1..]
    ensures p != here && p[|here|] < |t.children| ==>
              var i := p[|here|];
              UnboundAt(t, env, here, p) <==> UnboundAt(t.children[i], env + Names(Introduced(t, i)), here + [i], p)
  {
  }

  lemma UnboundHere(t: Tree, env: set<string>, here: Path)
    ensures UnboundAt(t, env, here, here) <==> t.shape.Table? && !BoundBy(t, env)
  {
    assert here[|here|..] == [];
  }

  /** `p` leads through child `k` of `here` to a reference unbound in the scope of that child. */
  predicate UnboundBelow(t: Tree, env: set<string>, here: Path, p: Path) {
    Through(here, 0, |t.children|, p)
    && UnboundAt(t.children[p[|here|]], env + Names(Introduced(t, p[|here|])), here + [p[|here|]], p)
  }

  /** What is unbound in a tree is its own reference or lies below one of its children. */
  lemma UnboundSplit(t: Tree, env: set<string>, here: Path, p: Path)
    ensures UnboundAt(t, env, here, p) <==>
            (p == here && t.shape.Table? && !BoundBy(t, env)) || UnboundBelow(t, env, here, p)
  {
    UnboundHere(t, env, here);
    if here <= p {
      BelowHere(t, env, here, p);
    }
  }

  /** The places the resolver lists for a tree: its own, and those of its children. */
  function ListedBelow(t: Tree, env: set<string>, here: Path): seq<Path> {
    if t.shape.With? then UnboundCtes(t.children, t.shape.recursive, env, here, 0) else UnboundChildren(t, env, here, 0)
  }

  lemma ListedSplit(t: Tree, env: set<string>, here: Path, p: Path)
    ensures p in Unbound(t, env, here) <==>
            (p == here && t.shape.Table? && !BoundBy(t, env)) || p in ListedBelow(t, env, here)
  {
  }

  /** Both views agree on every reference at every depth. */
  lemma {:induction false} UnboundIff(t: Tree, env: set<string>, here: Path, p: Path)
    ensures p in Unbound(t, env, here) <==> UnboundAt(t, env, here, p)
    decreases t, 2
  {
    UnboundSplit(t, env, here, p);
    ListedSplit(t, env, here, p);
    ListedIff(t, env, here, p);
  }

  lemma {:induction false} ListedIff(t: Tree, env: set<string>, here: Path, p: Path)
    ensures p in ListedBelow(t, env, here) <==> UnboundBelow(t, env, here, p)
    decreases t, 1
  {
    if t.shape.With? {
      CtesIff(t.children, t.shape.recursive, env, here, 0, p);
      if Through(here, 0, |t.children|, p) {
        var k := p[|here|];
        assert Introduced(t, k) == Aliases(if t.shape.recursive then t.children[..k + 1] else t.children[..k]);
      }
    } else {
      ChildrenIff(t, env, here, 0, p);
    }
  }

  lemma {:induction false} CtesIff(ctes: seq<Tree>, recursive: bool, env: set<string>, here: Path, i: nat, p: Path)
    ensures p in UnboundCtes(ctes, recursive, env, here, i)
            <==> Through(here, i, |ctes|, p)
                 && var k := p[|here|] - i;
                    UnboundAt(ctes[k], env + Names(Aliases(if recursive then ctes[..k + 1] else ctes[..k])),
                              here + [p[|here|]], p)
    decreases ctes, 0
  {
    if ctes != [] {
      var behind := env + {Alias(ctes[0])};
      UnboundIff(ctes[0], if recursive then behind else env, here + [i], p);
      CtesIff(ctes[1..], recursive, behind, here, i + 1, p);
      if Through(here, i, |ctes|, p) {
        CteScope(ctes, recursive, env, p[|here|] - i);
      }
    }
  }

  lemma CteScope(ctes: seq<Tree>, recursive: bool, env: set<string>, k: nat)
    requires k < |ctes|
    ensures k == 0 ==> env + Names(Aliases(if recursive then ctes[..k + 1] else ctes[..k]))
                       == if recursive then env + {Alias(ctes[0])} else env
    ensures k > 0 ==> env + Names(Aliases(if recursive then ctes[..k + 1] else ctes[..k]))
                      == env + {Alias(ctes[0])}
                         + Names(Aliases(if recursive then ctes[1..][..k] else ctes[1..][..k - 1]))
  {
    FrontScope(ctes, env, if recursive then k + 1 else k);
    assert ctes[1..][..0] == [];
  }

  /** The first `n` names are the first one and the `n - 1` behind it. */
  lemma FrontScope(ctes: seq<Tree>, env: set<string>, n: nat)
    requires n <= |ctes|
    ensures n == 0 ==> env + Names(Aliases(ctes[..n])) == env
    ensures n > 0 ==> env + Names(Aliases(ctes[..n])) == env + {Alias(ctes[0])} + Names(Aliases(ctes[1..][..n - 1]))
  {
    if n > 0 {
      var front := ctes[..n];
      assert front[1..] == ctes[1..][..n - 1];
      assert Aliases(front) == [Alias(front[0])] + Aliases(front[1..]);
      assert Names(Aliases(front)) == {Alias(front[0])} + Names(Aliases(front[1..]));
    }
  }

  lemma {:induction false} ChildrenIff(t: Tree, env: set<string>, here: Path, i: nat, p: Path)
    requires i <= |t.children|
    ensures p in UnboundChildren(t, env, here, i)
            <==> Through(here, i, |t.children| - i, p)
                 && UnboundAt(t.children[p[|here|]], env + Names(Aliases(OwnCtes(t, p[|here|]))), here + [p[|here|]], p)
    decreases t, 0, |t.children| - i
  {
    if i < |t.children| {
      InsideIs(t, env, i);
      UnboundIff(t.children[i], Inside(t, env, i), here + [i], p);
      ChildrenIff(t, env, here, i + 1, p);
    }
  }

  // ---- the scope of a clause ----

  /** The names that the first `n` CTEs of a clause define. */
  function DefinedBefore(clause: Tree, n: nat): set<string>
    requires n <= |clause.children|
  {
    set k | 0 <= k < n :: if clause.children[k].shape.Cte? then clause.children[k].shape.alias else ""
  }

  lemma FrontNames(clause: Tree, n: nat)
    requires n <= |clause.children|
    ensures Names(Aliases(clause.children[..n])) == DefinedBefore(clause, n)
  {
    var front := clause.children[..n];
    AliasNames(front);
    forall x | x in DefinedBefore(clause, n)
      ensures x in Names(Aliases(front))
    {
      var k :| 0 <= k < n && x == if clause.children[k].shape.Cte? then clause.children[k].shape.alias else "";
      assert front[k] in front;
    }
  }

  /** The scope of a child, one level down. */
  lemma ChildScope(root: Tree, node: Path, i: nat)
    requires Valid(root, node) && i < |At(root, node).children|
    ensures Valid(root, node + [i]) && At(root, node + [i]) == At(root, node).children[i]
    ensures ScopeAt(root, node + [i], {}) == ScopeAt(root, node, {}) + Names(Introduced(At(root, node), i))
  {
    ValidAppend(root, node, [i]);
    ScopeStep(root, node, i, {});
  }

  /** The clause itself stands in the scope around its node; the rest of the node sees all it defines. */
  lemma AroundClause(root: Tree, node: Path, i: nat)
    requires Valid(root, node) && HasClause(At(root, node)) && !At(root, node).shape.With?
    requires i < |At(root, node).children|
    ensures var t := At(root, node);
            var clause := t.children[t.withAt.value];
            && Valid(root, node + [i]) && At(root, node + [i]) == t.children[i]
            && ScopeAt(root, node + [i], {})
            == ScopeAt(root, node, {}) + if i == t.withAt.value then {} else DefinedBefore(clause, |clause.children|)
  {
    var t := At(root, node);
    var clause := t.children[t.withAt.value];
    ChildScope(root, node, i);
    FrontNames(clause, |clause.children|);
    assert clause.children[..|clause.children|] == clause.children;
  }

  lemma CteOfClause(root: Tree, at: Path, k: nat)
    requires Valid(root, at) && At(root, at).shape.With? && k < |At(root, at).children|
    ensures var clause := At(root, at);
            && Valid(root, at + [k])
            && ScopeAt(root, at + [k], {})
            == ScopeAt(root, at, {}) + DefinedBefore(clause, if clause.shape.recursive then k + 1 else k)
  {
    ChildScope(root, at, k);
    FrontNames(At(root, at), if At(root, at).shape.recursive then k + 1 else k);
  }

  /** CTE `k` of a clause is read in the scope around the node that has the clause and behind the CTEs before
      it: no name that only CTE `k` itself or a later one defines is bound there, unless the clause is
      recursive, where CTE `k` sees its own name too. */
  lemma InsideClause(root: Tree, node: Path, k: nat)
    requires Valid(root, node) && HasClause(At(root, node)) && !At(root, node).shape.With?
    requires k < |At(root, node).children[At(root, node).withAt.value].children|
    ensures var t := At(root, node);
            var clause := t.children[t.withAt.value];
            && Valid(root, node + [t.withAt.value] + [k])
            && ScopeAt(root, node + [t.withAt.value] + [k], {})
            == ScopeAt(root, node, {}) + DefinedBefore(clause, if clause.shape.recursive then k + 1 else k)
  {
    AroundClause(root, node, At(root, node).withAt.value);
    CteOfClause(root, node + [At(root, node).withAt.value], k);
  }
}
