/**
 What a list entry says about the objects it touches: the captures a pattern declares, the
 import-time check against the target rule, and the extraction from an actual match.
 */
module StatementTargets {
  import opened Wrappers
  import opened ReadonlyStatements
  import Tokens = SqlTokens

  datatype TargetRule = NoTarget | OneRelation | OptionalRelation | InnerQuery

  datatype ReadonlyStatement = ReadonlyStatement(family: string, pattern: seq<Element>, target: TargetRule)

  datatype RelationRef = RelationRef(catalog: string, database: string, name: string)

  datatype StatementMatch = StatementMatch(family: string, relations: seq<RelationRef>, innerQuery: Option<(nat, nat)>)

  // ---- declared captures ----

  type Declared = seq<(string, bool)>

  /** The captures an element declares, each with whether every match has it. */
  function CaptureNames(e: Element): Declared
    decreases e, 0
  {
    match e
    case Name(capture, _, _) => [(capture, true)]
    case Str(captured) => if captured.Some? then [(captured.value, true)] else []
    case Rest(capture) => [(capture, true)]
    case Opt(elements) => Weaken(CaptureNamesAll(elements))
    case OneOf(alternatives) => CaptureNamesAny(alternatives)
    case _ => []
  }

  function CaptureNamesAll(es: seq<Element>): Declared
    decreases es, 0
  {
    if es == [] then [] else CaptureNames(es[0]) + CaptureNamesAll(es[1..])
  }

  function CaptureNamesAny(alternatives: seq<Alternative>): Declared
    decreases alternatives, 0
  {
    if alternatives == [] then []
    else Weaken(CaptureNamesAll(alternatives[0].elements)) + CaptureNamesAny(alternatives[1..])
  }

  function Weaken(names: Declared): (r: Declared)
    ensures |r| == |names| && forall i :: 0 <= i < |r| ==> r[i] == (names[i].0, false)
  {
    if names == [] then [] else [(names[0].0, false)] + Weaken(names[1..])
  }

  /** The dictionary the check folds the declarations into. */
  function NamesMap(names: Declared): (m: map<string, bool>)
    ensures forall n :: n in m <==> Mentions(names, n)
    ensures forall n :: n in m ==> (m[n] <==> (n, true) in names)
  {
    if names == [] then map[]
    else
      var front := NamesMap(names[..|names| - 1]);
      var (name, required) := names[|names| - 1];
      assert names == names[..|names| - 1] + [(name, required)];
      front[name := (name in front && front[name]) || required]
  }

  predicate Mentions(names: Declared, n: string) { (n, true) in names || (n, false) in names }

  function RelationCaptures(names: map<string, bool>): (r: map<string, bool>)
    ensures forall n :: n in r <==> n in names && (n == "relation" || n == "relation_name")
    ensures forall n :: n in r ==> r[n] == names[n]
  {
    map n | n in names && (n == "relation" || n == "relation_name") :: names[n]
  }

  /** `_check_target_rule`. */
  predicate TargetRuleHolds(statement: ReadonlyStatement) {
    var names := NamesMap(CaptureNamesAll(statement.pattern));
    var relations := RelationCaptures(names);
    match statement.target
    case NoTarget => relations == map[] && "inner_query" !in names
    case OneRelation => relations == map["relation" := true] && "inner_query" !in names
    case OptionalRelation => relations != map[] && (forall n :: n in relations ==> !relations[n])
        && "inner_query" !in names
    case InnerQuery => names == map["inner_query" := true]
  }

  /** What the check asks of the declared captures. */
  ghost predicate DeclaresFor(target: TargetRule, declared: Declared) {
    match target
    case NoTarget =>
      !Mentions(declared, "relation") && !Mentions(declared, "relation_name") && !Mentions(declared, "inner_query")
    case OneRelation =>
      ("relation", true) in declared && !Mentions(declared, "relation_name") && !Mentions(declared, "inner_query")
    case OptionalRelation =>
      && (Mentions(declared, "relation") || Mentions(declared, "relation_name")) && !Mentions(declared, "inner_query")
      && ("relation", true) !in declared && ("relation_name", true) !in declared
    case InnerQuery =>
      ("inner_query", true) in declared && forall n :: Mentions(declared, n) ==> n == "inner_query"
  }

  /** The check passes exactly the rows whose declared captures suit their target rule: none of objects, one
      certain relation, an object that is never certain, or the inner query alone. */
  lemma CheckIff(s: ReadonlyStatement)
    ensures TargetRuleHolds(s) <==> DeclaresFor(s.target, CaptureNamesAll(s.pattern))
  {
    var declared := CaptureNamesAll(s.pattern);
    RelationsAre(NamesMap(declared));
    if s.target.InnerQuery? && DeclaresFor(s.target, declared) {
      assert Mentions(declared, "inner_query");
      assert forall n :: n in NamesMap(declared) <==> n == "inner_query";
    }
  }

  lemma RelationsAre(names: map<string, bool>)
    ensures RelationCaptures(names) == map[] <==> "relation" !in names && "relation_name" !in names
    ensures RelationCaptures(names) == map["relation" := true]
            <==> "relation" in names && names["relation"] && "relation_name" !in names
  {
    assert "relation_name" != "relation";
    var relations := RelationCaptures(names);
    assert "relation" in names ==> "relation" in relations;
    assert "relation_name" in names ==> "relation_name" in relations;
  }

  // ---- declared captures are the captured ones ----

  predicate Holds(caps: Captures, n: string) {
    exists i :: 0 <= i < |caps| && caps[i].0 == n
  }

  /** `caps` holds only names that are declared, and all that are declared as certain. */
  ghost predicate Accounts(caps: Captures, names: Declared) {
    && (forall i :: 0 <= i < |caps| ==> Mentions(names, caps[i].0))
    && (forall i :: 0 <= i < |names| && names[i].1 ==> Holds(caps, names[i].0))
  }

  lemma MentionsWeakly(names: Declared, n: string)
    requires Mentions(names, n)
    ensures Mentions(Weaken(names), n)
  {
  }

  lemma AccountsWeakly(caps: Captures, names: Declared)
    requires Accounts(caps, names)
    ensures Accounts(caps, Weaken(names))
  {
  }

  lemma AccountsAppend(front: Captures, a: Declared, back: Captures, b: Declared)
    requires Accounts(front, a) && Accounts(back, b)
    ensures Accounts(front + back, a + b)
  {
    var caps := front + back;
    forall n | Holds(front, n) || Holds(back, n)
      ensures Holds(caps, n)
    {
      if Holds(front, n) {
        var i :| 0 <= i < |front| && front[i].0 == n;
        assert caps[i].0 == n;
      } else {
        var i :| 0 <= i < |back| && back[i].0 == n;
        assert caps[|front| + i].0 == n;
      }
    }
  }

  lemma {:induction false} AnyNamesWeak(alternatives: seq<Alternative>)
    ensures forall i :: 0 <= i < |CaptureNamesAny(alternatives)| ==> !CaptureNamesAny(alternatives)[i].1
    decreases alternatives
  {
    if alternatives != [] {
      AnyNamesWeak(alternatives[1..]);
    }
  }

  lemma {:induction false} AnyMentions(alternatives: seq<Alternative>, i: nat, n: string)
    requires i < |alternatives| && Mentions(CaptureNamesAll(alternatives[i].elements), n)
    ensures Mentions(CaptureNamesAny(alternatives), n)
    decreases alternatives
  {
    if i == 0 {
      MentionsWeakly(CaptureNamesAll(alternatives[0].elements), n);
    } else {
      assert alternatives[1..][i - 1] == alternatives[i];
      AnyMentions(alternatives[1..], i - 1, n);
    }
  }

  lemma AnyAccounts(alternatives: seq<Alternative>, i: nat, caps: Captures)
    requires i < |alternatives| && Accounts(caps, CaptureNamesAll(alternatives[i].elements))
    ensures Accounts(caps, CaptureNamesAny(alternatives))
  {
    AnyNamesWeak(alternatives);
    forall k | 0 <= k < |caps|
      ensures Mentions(CaptureNamesAny(alternatives), caps[k].0)
    {
      AnyMentions(alternatives, i, caps[k].0);
    }
  }

  /** Every match captures only declared names and all required ones. */
  lemma {:induction false} MatchAccounts(e: Element, src: Input, p: nat, q: nat, caps: Captures)
    requires Derives(e, src, p, q, caps)
    ensures Accounts(caps, CaptureNames(e))
    decreases e, 0
  {
    match e
    case Name(_, _, _) =>
      var n: nat :| NameOf(e, src, p, n, q, caps);
      assert caps[0].0 == e.capture;
    case Opt(elements) =>
      if DerivesAll(elements, src, p, q, caps) {
        MatchAllAccounts(elements, src, p, q, caps);
        AccountsWeakly(caps, CaptureNamesAll(elements));
      }
    case OneOf(alternatives) =>
      var i :| 0 <= i < |alternatives| && DerivesAll(alternatives[i].elements, src, p, q, caps);
      MatchAllAccounts(alternatives[i].elements, src, p, q, caps);
      AnyAccounts(alternatives, i, caps);
    case Str(captured) =>
      if captured.Some? {
        assert caps[0].0 == captured.value;
      }
    case Rest(capture) =>
      assert caps[0].0 == capture;
    case _ =>
  }

  lemma {:induction false} MatchAllAccounts(es: seq<Element>, src: Input, p: nat, q: nat, caps: Captures)
    requires DerivesAll(es, src, p, q, caps)
    ensures Accounts(caps, CaptureNamesAll(es))
    decreases es, 0
  {
    if es != [] {
      var m, front, back := Split(es, src, p, q, caps);
      MatchAccounts(es[0], src, p, m, front);
      MatchAllAccounts(es[1..], src, m, q, back);
      AccountsAppend(front, CaptureNames(es[0]), back, CaptureNamesAll(es[1..]));
    }
  }

  // ---- the kind of value a capture holds ----

  /** Objects are captured as names, `relation_name` as a string, the inner query as a range. */
  predicate KindFits(n: string, v: Value) {
    && (n == "relation" || n == "database" ==> v.Parts?)
    && (n == "relation_name" ==> v.Text?)
    && (n == "inner_query" ==> v.Range?)
  }

  predicate KindsFit(e: Element)
    decreases e, 0
  {
    match e
    case Name(capture, _, _) => capture != "relation_name" && capture != "inner_query"
    case Str(captured) =>
      captured.Some? ==> captured.value != "relation" && captured.value != "database" && captured.value != "inner_query"
    case Rest(capture) => capture != "relation" && capture != "database" && capture != "relation_name"
    case Opt(elements) => AllKindsFit(elements)
    case OneOf(alternatives) => AnyKindsFit(alternatives)
    case _ => true
  }

  predicate AllKindsFit(es: seq<Element>)
    decreases es, 0
  {
    es == [] || (KindsFit(es[0]) && AllKindsFit(es[1..]))
  }

  predicate AnyKindsFit(alternatives: seq<Alternative>)
    decreases alternatives, 0
  {
    alternatives == [] || (AllKindsFit(alternatives[0].elements) && AnyKindsFit(alternatives[1..]))
  }

  predicate CapturesFit(caps: Captures) {
    forall i :: 0 <= i < |caps| ==> KindFits(caps[i].0, caps[i].1)
  }

  lemma {:induction false} AlternativeFits(alternatives: seq<Alternative>, i: nat)
    requires AnyKindsFit(alternatives) && i < |alternatives|
    ensures AllKindsFit(alternatives[i].elements)
    decreases alternatives
  {
    if i > 0 {
      AlternativeFits(alternatives[1..], i - 1);
      assert alternatives[1..][i - 1] == alternatives[i];
    }
  }

  lemma {:induction false} MatchFits(e: Element, src: Input, p: nat, q: nat, caps: Captures)
    requires KindsFit(e) && Derives(e, src, p, q, caps)
    ensures CapturesFit(caps)
    decreases e, 0
  {
    match e
    case Opt(elements) =>
      if DerivesAll(elements, src, p, q, caps) {
        MatchAllFits(elements, src, p, q, caps);
      }
    case OneOf(alternatives) =>
      var i :| 0 <= i < |alternatives| && DerivesAll(alternatives[i].elements, src, p, q, caps);
      AlternativeFits(alternatives, i);
      MatchAllFits(alternatives[i].elements, src, p, q, caps);
    case Name(_, _, _) =>
      var n: nat :| NameOf(e, src, p, n, q, caps);
    case _ =>
  }

  lemma {:induction false} MatchAllFits(es: seq<Element>, src: Input, p: nat, q: nat, caps: Captures)
    requires AllKindsFit(es) && DerivesAll(es, src, p, q, caps)
    ensures CapturesFit(caps)
    decreases es, 0
  {
    if es != [] {
      var m, front, back := Split(es, src, p, q, caps);
      MatchFits(es[0], src, p, m, front);
      MatchAllFits(es[1..], src, m, q, back);
    }
  }

  // ---- extraction ----

  /** `dict(captures).get(n)`: the last value captured under `n`. */
  function Captured(caps: Captures, n: string): Option<Value> {
    if caps == [] then None
    else if caps[|caps| - 1].0 == n then Some(caps[|caps| - 1].1)
    else Captured(caps[..|caps| - 1], n)
  }

  /** `_relation_ref`: the last three of two empty strings and the parts. */
  function RelationOf(parts: seq<string>): RelationRef {
    var padded := ["", ""] + parts;
    var n := |padded|;
    RelationRef(if n >= 3 then padded[n - 3] else "", padded[n - 2], padded[n - 1])
  }

  function ToMatch(statement: ReadonlyStatement, caps: Captures): StatementMatch {
    var relation := Captured(caps, "relation");
    var name := Captured(caps, "relation_name");
    var database := Captured(caps, "database");
    var inner := Captured(caps, "inner_query");
    StatementMatch(
      statement.family,
      (if relation.Some? && relation.value.Parts? then [RelationOf(relation.value.parts)] else [])
      + (if name.Some? && name.value.Text? then [RelationRef("", FirstPart(database), name.value.text)] else []),
      if inner.Some? && inner.value.Range? then Some((inner.value.start, inner.value.end)) else None)
  }

  function FirstPart(database: Option<Value>): string {
    if database.Some? && database.value.Parts? && database.value.parts != [] then database.value.parts[0] else ""
  }

  lemma {:induction false} CapturedIff(caps: Captures, n: string)
    ensures Captured(caps, n).Some? <==> Holds(caps, n)
    ensures CapturesFit(caps) && Captured(caps, n).Some? ==> KindFits(n, Captured(caps, n).value)
    decreases |caps|
  {
    if caps != [] {
      var front := caps[..|caps| - 1];
      CapturedIff(front, n);
      if Holds(caps, n) && caps[|caps| - 1].0 != n {
        var i :| 0 <= i < |caps| && caps[i].0 == n;
        assert front[i].0 == n;
      }
    }
  }

  /** How many objects and whether an inner query each rule promises. */
  predicate RuleMet(rule: TargetRule, m: StatementMatch) {
    match rule
    case NoTarget => m.relations == [] && m.innerQuery == None
    case OneRelation => |m.relations| == 1 && m.innerQuery == None
    case OptionalRelation => m.innerQuery == None
    case InnerQuery => m.relations == [] && m.innerQuery.Some?
  }

  /** The captured target is in the form the extraction understands. */
  predicate TargetUnderstood(rule: TargetRule, caps: Captures) {
    match rule
    case OneRelation => Captured(caps, "relation").Some? && Captured(caps, "relation").value.Parts?
    case InnerQuery => Captured(caps, "inner_query").Some? && Captured(caps, "inner_query").value.Range?
    case _ => true
  }

  /** Of a statement that passed the import-time check, a match keeps the target rule exactly if
      what it captured as the target is in the form the extraction understands. */
  lemma ExtractionIff(statement: ReadonlyStatement, src: Input, q: nat, caps: Captures)
    requires TargetRuleHolds(statement) && DerivesAll(statement.pattern, src, 0, q, caps)
    ensures RuleMet(statement.target, ToMatch(statement, caps)) <==> TargetUnderstood(statement.target, caps)
  {
    var declared := CaptureNamesAll(statement.pattern);
    MatchAllAccounts(statement.pattern, src, 0, q, caps);
    DeclaredOrNot(caps, declared, "relation");
    DeclaredOrNot(caps, declared, "relation_name");
    DeclaredOrNot(caps, declared, "inner_query");
    RuleCases(statement, NamesMap(declared));
  }

  /** A statement whose elements capture fitting forms keeps its target rule in every match. */
  lemma CheckImpliesExtraction(statement: ReadonlyStatement, src: Input, q: nat, caps: Captures)
    requires TargetRuleHolds(statement) && AllKindsFit(statement.pattern)
    requires DerivesAll(statement.pattern, src, 0, q, caps)
    ensures RuleMet(statement.target, ToMatch(statement, caps))
  {
    var declared := CaptureNamesAll(statement.pattern);
    MatchAllAccounts(statement.pattern, src, 0, q, caps);
    MatchAllFits(statement.pattern, src, 0, q, caps);
    DeclaredOrNot(caps, declared, "relation");
    DeclaredOrNot(caps, declared, "inner_query");
    CapturedIff(caps, "relation");
    CapturedIff(caps, "inner_query");
    RuleCases(statement, NamesMap(declared));
    ExtractionIff(statement, src, q, caps);
  }

  /** The import-time check does not look at forms: it lets a statement pass that captures its
      relation by a string, and the match of one string then extracts no object. */
  lemma CheckOverlooksForms(s: ReadonlyStatement, src: Input, caps: Captures)
    requires s == ReadonlyStatement("SHOW_NAMED", [Str(Some("relation"))], OneRelation)
    requires src.tokens == [Tok(Tokens.StringLiteral, "'t'", 0, 3)] && caps == [("relation", Text("t"))]
    ensures TargetRuleHolds(s) && !AllKindsFit(s.pattern)
    ensures DerivesAll(s.pattern, src, 0, 1, caps) && !RuleMet(s.target, ToMatch(s, caps))
  {
    var relation := Str(Some("relation"));
    assert s.pattern[1..] == [] && CaptureNames(relation) == [("relation", true)];
    assert CaptureNamesAll(s.pattern) == [("relation", true)];
    assert Inner("'t'") == "t" && PlainLiteral(src, 0) == Some("t");
    assert Derives(relation, src, 0, 1, caps) && caps + [] == caps && DerivesAll([], src, 1, 1, []);
    assert DerivesAll(s.pattern, src, 0, 1, caps);
    ExtractionIff(s, src, 1, caps);
  }

  /** An undeclared name is not captured, a required one is. */
  lemma DeclaredOrNot(caps: Captures, declared: Declared, n: string)
    requires Accounts(caps, declared)
    ensures n !in NamesMap(declared) ==> Captured(caps, n).None?
    ensures n in NamesMap(declared) && NamesMap(declared)[n] ==> Captured(caps, n).Some?
  {
    CapturedIff(caps, n);
    if Holds(caps, n) {
      var i :| 0 <= i < |caps| && caps[i].0 == n;
      assert Mentions(declared, caps[i].0);
    }
    if (n, true) in declared {
      var i :| 0 <= i < |declared| && declared[i] == (n, true);
      assert Holds(caps, declared[i].0);
    }
  }

  /** What the check says name by name. */
  lemma RuleCases(statement: ReadonlyStatement, names: map<string, bool>)
    requires TargetRuleHolds(statement) && names == NamesMap(CaptureNamesAll(statement.pattern))
    ensures statement.target.NoTarget? || statement.target.InnerQuery? ==> "relation" !in names
    ensures !statement.target.OptionalRelation? ==> "relation_name" !in names
    ensures statement.target.OneRelation? ==> "relation" in names && names["relation"]
    ensures !statement.target.InnerQuery? ==> "inner_query" !in names
    ensures statement.target.InnerQuery? ==> "inner_query" in names && names["inner_query"]
  {
    var relations := RelationCaptures(names);
    match statement.target
    case NoTarget =>
      assert "relation" !in relations && "relation_name" !in relations;
    case OneRelation =>
      assert "relation" in relations && "relation_name" !in relations;
    case _ =>
  }

  // ---- how many objects ----

  /** The pattern names its object in one way only. */
  predicate OneSource(statement: ReadonlyStatement) {
    var names := NamesMap(CaptureNamesAll(statement.pattern));
    !("relation" in names && "relation_name" in names)
  }

  /** Then no match extracts more than one object, whatever the target rule. */
  lemma AtMostOneObject(statement: ReadonlyStatement, src: Input, q: nat, caps: Captures)
    requires OneSource(statement) && DerivesAll(statement.pattern, src, 0, q, caps)
    ensures |ToMatch(statement, caps).relations| <= 1
  {
    var declared := CaptureNamesAll(statement.pattern);
    MatchAllAccounts(statement.pattern, src, 0, q, caps);
    DeclaredOrNot(caps, declared, "relation");
    DeclaredOrNot(caps, declared, "relation_name");
  }
}
