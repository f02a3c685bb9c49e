/**
 Which rows keep their target rule in all their matches, read off the row alone: the form of the value
 that a match captures last under a name, for every match the row can have.
 */
module StatementForms {
  import opened Wrappers
  import opened ReadonlyStatements
  import opened StatementTargets

  datatype Form = PartsForm | TextForm | RangeForm

  function FormOf(v: Value): Form {
    match v
    case Parts(_) => PartsForm
    case Text(_) => TextForm
    case Range(_, _) => RangeForm
  }

  /** The form of the last value captured under `n`. */
  function Last(caps: Captures, n: string): Option<Form> {
    if Captured(caps, n).Some? then Some(FormOf(Captured(caps, n).value)) else None
  }

  function Later(a: Option<Form>, b: Option<Form>): Option<Form> { if b.Some? then b else a }

  lemma {:induction false} LastAppend(a: Captures, b: Captures, n: string)
    ensures Last(a + b, n) == Later(Last(a, n), Last(b, n))
    decreases |b|
  {
    if b == [] {
      assert a + b == a;
    } else {
      assert (a + b)[..|a + b| - 1] == a + b[..|b| - 1] && (a + b)[|a + b| - 1] == b[|b| - 1];
      LastAppend(a, b[..|b| - 1], n);
    }
  }

  // ---- read off the row ----

  /** The element can match no token. */
  ghost predicate Nullable(e: Element)
    decreases e, 0
  {
    match e
    case Kw(words) => words == []
    case Opt(_) => true
    case Many(_) => true
    case OneOf(alternatives) => exists i :: 0 <= i < |alternatives| && NullableAll(alternatives[i].elements)
    case _ => false
  }

  ghost predicate NullableAll(es: seq<Element>)
    decreases es, 0
  {
    es == [] || (Nullable(es[0]) && NullableAll(es[1..]))
  }

  function Under(capture: string, n: string, f: Form): Option<Form> { if capture == n then Some(f) else None }

  /** The element can match so that `l` is the form captured last under `n`; `ends` where it takes all the
      tokens that are left. */
  ghost predicate Can(e: Element, n: string, l: Option<Form>, ends: bool)
    decreases e, 0
  {
    match e
    case Name(capture, least, most) => 1 <= most && least <= most && l == Under(capture, n, PartsForm) && !ends
    case Str(captured) => l == (if captured == Some(n) then Some(TextForm) else None) && !ends
    case Rest(capture) => l == Under(capture, n, RangeForm) && ends
    case Column(allowed) => allowed != {} && l == None && !ends
    case Opt(elements) => (l == None && !ends) || CanAll(elements, n, l, ends)
    case OneOf(alternatives) => exists i :: 0 <= i < |alternatives| && CanAll(alternatives[i].elements, n, l, ends)
    case _ => l == None && !ends
  }

  ghost predicate CanAll(es: seq<Element>, n: string, l: Option<Form>, ends: bool)
    decreases es, 0
  {
    if es == [] then l == None && !ends
    else exists first: Option<Form>, b: bool :: Can(es[0], n, first, b) && CanBehind(es[1..], n, first, b, l, ends)
  }

  /** The same behind an element that captured `first`; behind the end only empty matches are left. */
  ghost predicate CanBehind(es: seq<Element>, n: string, first: Option<Form>, b: bool, l: Option<Form>, ends: bool)
    decreases es, 1
  {
    if b then ends && l == first && NullableAll(es)
    else exists later: Option<Form> :: CanAll(es, n, later, ends) && l == Later(first, later)
  }

  // ---- every match is foreseen ----

  lemma {:induction false} EmptyMatch(e: Element, src: Input, p: nat, caps: Captures)
    requires p <= |src.tokens| && Derives(e, src, p, p, caps)
    ensures caps == [] && Nullable(e)
    decreases e, 0
  {
    match e
    case Opt(elements) =>
      if DerivesAll(elements, src, p, p, caps) {
        EmptyMatchAll(elements, src, p, caps);
      }
    case OneOf(alternatives) =>
      var i :| 0 <= i < |alternatives| && DerivesAll(alternatives[i].elements, src, p, p, caps);
      EmptyMatchAll(alternatives[i].elements, src, p, caps);
    case _ =>
  }

  lemma {:induction false} EmptyMatchAll(es: seq<Element>, src: Input, p: nat, caps: Captures)
    requires p <= |src.tokens| && DerivesAll(es, src, p, p, caps)
    ensures caps == [] && NullableAll(es)
    decreases es, 0
  {
    if es != [] {
      var m, front, back := Split(es, src, p, p, caps);
      DerivesBounded(es[0], src, p, m, front);
      AllBounded(es[1..], src, m, p, back);
      EmptyMatch(es[0], src, p, front);
      EmptyMatchAll(es[1..], src, p, back);
    }
  }

  lemma {:induction false} Foreseen(e: Element, n: string, src: Input, p: nat, q: nat, caps: Captures)
    returns (ends: bool)
    requires p <= |src.tokens| && Derives(e, src, p, q, caps)
    ensures Can(e, n, Last(caps, n), ends) && (ends ==> q == |src.tokens|)
    decreases e, 0
  {
    ends := e.Rest?;
    match e
    case Name(_, _, _) =>
      var k: nat :| NameOf(e, src, p, k, q, caps);
      SingleLast(caps[0].0, caps[0].1, n);
    case Str(captured) =>
      if captured.Some? {
        SingleLast(caps[0].0, caps[0].1, n);
      }
    case Rest(_) => SingleLast(caps[0].0, caps[0].1, n);
    case Opt(elements) =>
      if DerivesAll(elements, src, p, q, caps) {
        ends := ForeseenAll(elements, n, src, p, q, caps);
      }
    case OneOf(alternatives) =>
      var i :| 0 <= i < |alternatives| && DerivesAll(alternatives[i].elements, src, p, q, caps);
      ends := ForeseenAll(alternatives[i].elements, n, src, p, q, caps);
    case _ =>
  }

  lemma {:induction false} ForeseenAll(es: seq<Element>, n: string, src: Input, p: nat, q: nat, caps: Captures)
    returns (ends: bool)
    requires p <= |src.tokens| && DerivesAll(es, src, p, q, caps)
    ensures CanAll(es, n, Last(caps, n), ends) && (ends ==> q == |src.tokens|)
    decreases es, 0
  {
    ends := false;
    if es != [] {
      var m, front, back := Split(es, src, p, q, caps);
      DerivesBounded(es[0], src, p, m, front);
      AllBounded(es[1..], src, m, q, back);
      LastAppend(front, back, n);
      var b := Foreseen(es[0], n, src, p, m, front);
      if b {
        EmptyMatchAll(es[1..], src, m, back);
        ends := true;
      } else {
        ends := ForeseenAll(es[1..], n, src, m, q, back);
      }
      assert CanBehind(es[1..], n, Last(front, n), b, Last(caps, n), ends);
    }
  }

  // ---- everything foreseen is matched ----

  /** The tokens stand at `p` in an input without lower-case words; `ends` where nothing follows them. */
  predicate Stand(src: Input, p: nat, ts: seq<Tok>, ends: bool) {
    p + |ts| <= |src.tokens| && src.tokens[p..p + |ts|] == ts && (ends ==> p + |ts| == |src.tokens|)
  }

  ghost predicate Upper(src: Input) { forall w :: src.upper(w) == w }

  ghost predicate Matched(e: Element, n: string, l: Option<Form>, src: Input, p: nat, q: nat) {
    exists caps: Captures :: Derives(e, src, p, q, caps) && Last(caps, n) == l
  }

  ghost predicate MatchedAll(es: seq<Element>, n: string, l: Option<Form>, src: Input, p: nat, q: nat) {
    exists caps: Captures :: DerivesAll(es, src, p, q, caps) && Last(caps, n) == l
  }

  /** Wherever the tokens stand, they are matched with that form. */
  ghost predicate Example(e: Element, n: string, l: Option<Form>, ends: bool, ts: seq<Tok>) {
    forall src: Input, p: nat :: Upper(src) && Stand(src, p, ts, ends) ==> Matched(e, n, l, src, p, p + |ts|)
  }

  ghost predicate ExampleAll(es: seq<Element>, n: string, l: Option<Form>, ends: bool, ts: seq<Tok>) {
    forall src: Input, p: nat :: Upper(src) && Stand(src, p, ts, ends) ==> MatchedAll(es, n, l, src, p, p + |ts|)
  }

  function WordTok(w: string): Tok { Tok(Tokens.Word, w, 0, 0) }

  function SymbolTok(s: string): Tok { Tok(Tokens.Symbol, s, 0, 0) }

  function WordToks(words: seq<string>): (ts: seq<Tok>)
    ensures |ts| == |words| && forall i :: 0 <= i < |ts| ==> ts[i] == WordTok(words[i])
  {
    if words == [] then [] else [WordTok(words[0])] + WordToks(words[1..])
  }

  /** A name of `k` parts. */
  function NameToks(k: nat): (ts: seq<Tok>)
    requires k > 0
    ensures |ts| == 2 * k - 1
  {
    if k == 1 then [WordTok("x")] else NameToks(k - 1) + [SymbolTok("."), WordTok("x")]
  }

  lemma StandAt(src: Input, p: nat, ts: seq<Tok>, ends: bool, i: nat)
    requires Stand(src, p, ts, ends) && i < |ts|
    ensures src.tokens[p + i] == ts[i]
  {
    assert src.tokens[p..p + |ts|][i] == ts[i];
  }

  lemma {:induction false} NameStands(src: Input, p: nat, k: nat)
    requires k > 0 && Stand(src, p, NameToks(k), false)
    ensures DottedName(src, p, k)
    decreases k
  {
    var ts := NameToks(k);
    StandAt(src, p, ts, false, 2 * k - 2);
    if k == 1 {
      assert DottedName(src, p, 0);
    } else {
      StandAt(src, p, ts, false, 2 * k - 3);
      assert src.tokens[p..p + |ts|][..2 * k - 3] == src.tokens[p..p + (2 * k - 3)];
      assert ts[..2 * k - 3] == NameToks(k - 1);
      NameStands(src, p, k - 1);
    }
  }

  lemma NameMatched(e: Element, n: string, src: Input, p: nat, k: nat)
    requires e.Name? && 1 <= k && e.minParts <= k <= e.maxParts && Stand(src, p, NameToks(k), false)
    ensures Matched(e, n, Under(e.capture, n, PartsForm), src, p, p + |NameToks(k)|)
  {
    NameStands(src, p, k);
    var caps: Captures := [(e.capture, Parts(NameParts(src, p, k)))];
    SingleLast(e.capture, Parts(NameParts(src, p, k)), n);
    assert NameOf(e, src, p, k, p + |NameToks(k)|, caps);
  }

  lemma SingleLast(capture: string, v: Value, n: string)
    ensures Last([(capture, v)], n) == Under(capture, n, FormOf(v))
  {
    var caps: Captures := [(capture, v)];
    assert caps[..|caps| - 1] == [] && Captured(caps[..|caps| - 1], n).None?;
    assert caps[|caps| - 1] == (capture, v);
  }

  lemma NameExample(e: Element, n: string) returns (ts: seq<Tok>)
    requires e.Name? && 1 <= e.maxParts && e.minParts <= e.maxParts
    ensures Example(e, n, Under(e.capture, n, PartsForm), false, ts)
  {
    var k := if e.minParts == 0 then 1 else e.minParts;
    ts := NameToks(k);
    forall src: Input, p: nat | Upper(src) && Stand(src, p, ts, false)
      ensures Matched(e, n, Under(e.capture, n, PartsForm), src, p, p + |ts|)
    {
      NameMatched(e, n, src, p, k);
    }
  }

  lemma WordsExample(words: seq<string>, n: string)
    ensures Example(Kw(words), n, None, false, WordToks(words))
  {
    var ts := WordToks(words);
    forall src: Input, p: nat | Upper(src) && Stand(src, p, ts, false)
      ensures Matched(Kw(words), n, None, src, p, p + |ts|)
    {
      forall i | 0 <= i < |words|
        ensures src.WordAt(p + i) == Some(words[i])
      {
        StandAt(src, p, ts, false, i);
      }
      assert Derives(Kw(words), src, p, p + |ts|, []);
    }
  }

  /** Elements of one token that capture nothing. */
  lemma OneTokenExample(e: Element, n: string) returns (ts: seq<Tok>)
    requires e.Sym? || e.Int? || (e.Column? && e.allowed != {})
    ensures Example(e, n, None, false, ts)
  {
    var t;
    match e {
      case Sym(symbol) => t := SymbolTok(symbol);
      case Int => t := WordTok("0");
      case Column(allowed) =>
        var column :| column in allowed;
        t := WordTok(column);
    }
    ts := [t];
    forall src: Input, p: nat | Upper(src) && Stand(src, p, ts, false)
      ensures Matched(e, n, None, src, p, p + |ts|)
    {
      StandAt(src, p, ts, false, 0);
      assert Derives(e, src, p, p + 1, []);
    }
  }

  lemma StrExample(captured: Option<string>, n: string)
    ensures Example(Str(captured), n, if captured == Some(n) then Some(TextForm) else None, false,
                    [Tok(Tokens.StringLiteral, "'t'", 0, 0)])
  {
    var ts := [Tok(Tokens.StringLiteral, "'t'", 0, 0)];
    forall src: Input, p: nat | Upper(src) && Stand(src, p, ts, false)
      ensures Matched(Str(captured), n, if captured == Some(n) then Some(TextForm) else None, src, p, p + 1)
    {
      StandAt(src, p, ts, false, 0);
      assert Inner("'t'") == "t" && PlainLiteral(src, p) == Some("t");
      var caps: Captures := if captured.Some? then [(captured.value, Text("t"))] else [];
      if captured.Some? {
        SingleLast(captured.value, Text("t"), n);
      }
      assert Derives(Str(captured), src, p, p + 1, caps);
    }
  }

  lemma RestExample(capture: string, n: string)
    ensures Example(Rest(capture), n, Under(capture, n, RangeForm), true, [WordTok("x")])
  {
    forall src: Input, p: nat | Upper(src) && Stand(src, p, [WordTok("x")], true)
      ensures Matched(Rest(capture), n, Under(capture, n, RangeForm), src, p, p + 1)
    {
      var v := Range(src.tokens[p].startByte, src.tokens[|src.tokens| - 1].endByte);
      SingleLast(capture, v, n);
      assert Derives(Rest(capture), src, p, p + 1, [(capture, v)]);
    }
  }

  lemma {:induction false} NullMatch(e: Element, src: Input, p: nat)
    requires Nullable(e)
    ensures Derives(e, src, p, p, [])
    decreases e, 0
  {
    match e
    case OneOf(alternatives) =>
      var i :| 0 <= i < |alternatives| && NullableAll(alternatives[i].elements);
      NullMatchAll(alternatives[i].elements, src, p);
    case Many(elements) =>
      assert Steps(elements, src, p, p, 0);
    case _ =>
  }

  lemma {:induction false} NullMatchAll(es: seq<Element>, src: Input, p: nat)
    requires NullableAll(es)
    ensures DerivesAll(es, src, p, p, [])
    decreases es, 0
  {
    if es != [] {
      NullMatch(es[0], src, p);
      NullMatchAll(es[1..], src, p);
      var none: Captures := [];
      assert none + none == none;
    }
  }

  lemma {:induction false} MakeExample(e: Element, n: string, l: Option<Form>, ends: bool) returns (ts: seq<Tok>)
    requires Can(e, n, l, ends)
    ensures Example(e, n, l, ends, ts)
    decreases e, 0
  {
    match e {
      case Kw(words) =>
        WordsExample(words, n);
        ts := WordToks(words);
      case Name(_, _, _) => ts := NameExample(e, n);
      case Str(captured) =>
        StrExample(captured, n);
        ts := [Tok(Tokens.StringLiteral, "'t'", 0, 0)];
      case Rest(capture) =>
        RestExample(capture, n);
        ts := [WordTok("x")];
      case Opt(elements) =>
        if CanAll(elements, n, l, ends) {
          ts := MakeExampleAll(elements, n, l, ends);
          OptExample(elements, n, l, ends, ts);
        } else {
          ts := [];
          NothingExample(e, n);
        }
      case OneOf(alternatives) =>
        var i :| 0 <= i < |alternatives| && CanAll(alternatives[i].elements, n, l, ends);
        ts := MakeExampleAll(alternatives[i].elements, n, l, ends);
        ChoiceExample(alternatives, i, n, l, ends, ts);
      case Many(_) =>
        ts := [];
        NothingExample(e, n);
      case _ => ts := OneTokenExample(e, n);
    }
  }

  lemma NothingExample(e: Element, n: string)
    requires Nullable(e)
    ensures Example(e, n, None, false, [])
  {
    forall src: Input, p: nat | Upper(src) && Stand(src, p, [], false)
      ensures Matched(e, n, None, src, p, p)
    {
      NullMatch(e, src, p);
    }
  }

  lemma OptExample(es: seq<Element>, n: string, l: Option<Form>, ends: bool, ts: seq<Tok>)
    requires ExampleAll(es, n, l, ends, ts)
    ensures Example(Opt(es), n, l, ends, ts)
  {
    forall src: Input, p: nat | Upper(src) && Stand(src, p, ts, ends)
      ensures Matched(Opt(es), n, l, src, p, p + |ts|)
    {
      assert MatchedAll(es, n, l, src, p, p + |ts|);
      var caps: Captures :| DerivesAll(es, src, p, p + |ts|, caps) && Last(caps, n) == l;
      assert Derives(Opt(es), src, p, p + |ts|, caps);
    }
  }

  lemma ChoiceExample(alternatives: seq<Alternative>, i: nat, n: string, l: Option<Form>, ends: bool, ts: seq<Tok>)
    requires i < |alternatives| && ExampleAll(alternatives[i].elements, n, l, ends, ts)
    ensures Example(OneOf(alternatives), n, l, ends, ts)
  {
    forall src: Input, p: nat | Upper(src) && Stand(src, p, ts, ends)
      ensures Matched(OneOf(alternatives), n, l, src, p, p + |ts|)
    {
      assert MatchedAll(alternatives[i].elements, n, l, src, p, p + |ts|);
      var caps: Captures :| DerivesAll(alternatives[i].elements, src, p, p + |ts|, caps) && Last(caps, n) == l;
      assert Derives(OneOf(alternatives), src, p, p + |ts|, caps);
    }
  }

  lemma {:induction false} MakeExampleAll(es: seq<Element>, n: string, l: Option<Form>, ends: bool)
    returns (ts: seq<Tok>)
    requires CanAll(es, n, l, ends)
    ensures ExampleAll(es, n, l, ends, ts)
    decreases es, 0
  {
    if es == [] {
      ts := [];
      forall src: Input, p: nat | Upper(src) && Stand(src, p, ts, ends)
        ensures MatchedAll(es, n, l, src, p, p + |ts|)
      {
        assert DerivesAll(es, src, p, p, []);
      }
    } else {
      var first: Option<Form>, b: bool :| Can(es[0], n, first, b) && CanBehind(es[1..], n, first, b, l, ends);
      var head := MakeExample(es[0], n, first, b);
      if b {
        ts := head;
        EndExample(es, n, l, ts);
      } else {
        var later: Option<Form> :| CanAll(es[1..], n, later, ends) && l == Later(first, later);
        var tail := MakeExampleAll(es[1..], n, later, ends);
        ts := head + tail;
        ChainExample(es, n, first, later, ends, head, tail);
      }
    }
  }

  lemma Joined(es: seq<Element>, n: string, src: Input, p: nat, m: nat, q: nat, front: Captures, back: Captures)
    requires es != [] && Derives(es[0], src, p, m, front) && DerivesAll(es[1..], src, m, q, back)
    ensures MatchedAll(es, n, Later(Last(front, n), Last(back, n)), src, p, q)
  {
    LastAppend(front, back, n);
    assert DerivesAll(es, src, p, q, front + back);
  }

  lemma EndExample(es: seq<Element>, n: string, l: Option<Form>, ts: seq<Tok>)
    requires es != [] && Example(es[0], n, l, true, ts) && NullableAll(es[1..])
    ensures ExampleAll(es, n, l, true, ts)
  {
    forall src: Input, p: nat | Upper(src) && Stand(src, p, ts, true)
      ensures MatchedAll(es, n, l, src, p, p + |ts|)
    {
      assert Matched(es[0], n, l, src, p, p + |ts|);
      var front: Captures :| Derives(es[0], src, p, p + |ts|, front) && Last(front, n) == l;
      NullMatchAll(es[1..], src, p + |ts|);
      Joined(es, n, src, p, p + |ts|, p + |ts|, front, []);
    }
  }

  lemma ChainExample(es: seq<Element>, n: string, first: Option<Form>, later: Option<Form>, ends: bool,
                     head: seq<Tok>, tail: seq<Tok>)
    requires es != [] && Example(es[0], n, first, false, head) && ExampleAll(es[1..], n, later, ends, tail)
    ensures ExampleAll(es, n, Later(first, later), ends, head + tail)
  {
    var ts := head + tail;
    forall src: Input, p: nat | Upper(src) && Stand(src, p, ts, ends)
      ensures MatchedAll(es, n, Later(first, later), src, p, p + |ts|)
    {
      StandApart(src, p, head, tail, ends);
      var m := p + |head|;
      assert Matched(es[0], n, first, src, p, m) && MatchedAll(es[1..], n, later, src, m, m + |tail|);
      var front: Captures :| Derives(es[0], src, p, m, front) && Last(front, n) == first;
      var back: Captures :| DerivesAll(es[1..], src, m, m + |tail|, back) && Last(back, n) == later;
      Joined(es, n, src, p, m, m + |tail|, front, back);
    }
  }

  lemma StandApart(src: Input, p: nat, a: seq<Tok>, b: seq<Tok>, ends: bool)
    requires Stand(src, p, a + b, ends)
    ensures Stand(src, p, a, false) && Stand(src, p + |a|, b, ends)
  {
    var all := src.tokens[p..p + |a + b|];
    assert all == a + b;
    assert src.tokens[p..p + |a|] == all[..|a|] && src.tokens[p + |a|..p + |a| + |b|] == all[|a|..];
  }

  // ---- the rows that keep their rule ----

  /** Every complete match of the row keeps its target rule. */
  ghost predicate KeepsRule(s: ReadonlyStatement) {
    forall src: Input, caps: Captures :: DerivesAll(s.pattern, src, 0, |src.tokens|, caps) ==>
                                           RuleMet(s.target, ToMatch(s, caps))
  }

  /** Whatever the row can capture last as its target has the form the extraction reads. */
  ghost predicate FormsFit(s: ReadonlyStatement) {
    match s.target
    case OneRelation => forall l: Option<Form>, ends :: CanAll(s.pattern, "relation", l, ends) ==> l == Some(PartsForm)
    case InnerQuery => forall l: Option<Form>, ends :: CanAll(s.pattern, "inner_query", l, ends) ==>
                                  l == Some(RangeForm)
    case _ => true
  }

  function NameOfTarget(s: ReadonlyStatement): string { if s.target.OneRelation? then "relation" else "inner_query" }

  function FormOfTarget(s: ReadonlyStatement): Form { if s.target.OneRelation? then PartsForm else RangeForm }

  /** A form that can be captured is captured by some complete match. */
  lemma Realized(s: ReadonlyStatement, n: string, l: Option<Form>, ends: bool) returns (src: Input, caps: Captures)
    requires CanAll(s.pattern, n, l, ends)
    ensures DerivesAll(s.pattern, src, 0, |src.tokens|, caps) && Last(caps, n) == l
  {
    var ts := MakeExampleAll(s.pattern, n, l, ends);
    src := Input(ts, (w: string) => w);
    assert ts[0..0 + |ts|] == ts && Stand(src, 0, ts, ends) && Upper(src);
    assert MatchedAll(s.pattern, n, l, src, 0, 0 + |ts|);
    caps :| DerivesAll(s.pattern, src, 0, |src.tokens|, caps) && Last(caps, n) == l;
  }

  lemma FitKeeps(s: ReadonlyStatement, src: Input, caps: Captures)
    requires TargetRuleHolds(s) && FormsFit(s) && DerivesAll(s.pattern, src, 0, |src.tokens|, caps)
    ensures RuleMet(s.target, ToMatch(s, caps))
  {
    ExtractionIff(s, src, |src.tokens|, caps);
    var ends := ForeseenAll(s.pattern, NameOfTarget(s), src, 0, |src.tokens|, caps);
  }

  lemma KeepsFit(s: ReadonlyStatement, l: Option<Form>, ends: bool)
    requires TargetRuleHolds(s) && KeepsRule(s) && (s.target.OneRelation? || s.target.InnerQuery?)
    requires CanAll(s.pattern, NameOfTarget(s), l, ends)
    ensures l == Some(FormOfTarget(s))
  {
    var src, caps := Realized(s, NameOfTarget(s), l, ends);
    ExtractionIff(s, src, |src.tokens|, caps);
  }

  /** A row that passes the import-time check keeps its target rule in all its matches exactly if all the
      forms that can be captured last as its target fit. */
  lemma RowKeepsRuleIff(s: ReadonlyStatement)
    requires TargetRuleHolds(s)
    ensures KeepsRule(s) <==> FormsFit(s)
  {
    if FormsFit(s) {
      forall src: Input, caps: Captures | DerivesAll(s.pattern, src, 0, |src.tokens|, caps)
        ensures RuleMet(s.target, ToMatch(s, caps))
      {
        FitKeeps(s, src, caps);
      }
    }
    if KeepsRule(s) {
      if s.target.OneRelation? {
        forall l: Option<Form>, ends | CanAll(s.pattern, "relation", l, ends)
          ensures l == Some(PartsForm)
        {
          KeepsFit(s, l, ends);
        }
      } else if s.target.InnerQuery? {
        forall l: Option<Form>, ends | CanAll(s.pattern, "inner_query", l, ends)
          ensures l == Some(RangeForm)
        {
          KeepsFit(s, l, ends);
        }
      }
    }
  }
}
