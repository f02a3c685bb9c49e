/**
 The grammar engine of the read-only statement list: what each pattern element matches, said
 once as a derivation relation and once as the backtracking match that enumerates it.
 */
module ReadonlyStatements {
  import opened Wrappers
  import opened SqlTokens

  // ---- input ----

  /** A statement token with its text; `upper` is `str.upper`. */
  datatype Tok = Tok(kind: TokenKind, text: string, startByte: nat, endByte: nat)

  datatype Input = Input(tokens: seq<Tok>, upper: string -> string) {

    function WordAt(pos: nat): Option<string> {
      if pos < |tokens| && tokens[pos].kind == Word then Some(upper(tokens[pos].text)) else None
    }

    function Identifier(pos: nat): Option<string> {
      if pos >= |tokens| then None
      else if tokens[pos].kind == Word then Some(tokens[pos].text)
      else if tokens[pos].kind == QuotedIdentifier then
        var inner := SingleBackticks(Inner(tokens[pos].text));
        if inner == [] then None else Some(inner)
      else None
    }

    function SymbolAt(pos: nat): Option<string> {
      if pos < |tokens| && tokens[pos].kind == Symbol then Some(tokens[pos].text) else None
    }
  }

  /** `text[1:-1]`. */
  function Inner(text: string): string {
    if |text| >= 2 then text[1..|text| - 1] else []
  }

  /** Replaces each doubled backtick by one, from the left. */
  function SingleBackticks(s: string): string {
    if |s| >= 2 && s[0] == '`' && s[1] == '`' then ['`'] + SingleBackticks(s[2..])
    else if s == [] then []
    else [s[0]] + SingleBackticks(s[1..])
  }

  // ---- patterns ----

  datatype Value = Parts(parts: seq<string>) | Text(text: string) | Range(start: nat, end: nat)

  type Captures = seq<(string, Value)>

  datatype Element =
    | Kw(words: seq<string>)
    | Sym(symbol: string)
    | Name(capture: string, minParts: nat, maxParts: nat)
    | Str(captured: Option<string>)
    | Int
    | Column(allowed: set<string>)
    | Rest(capture: string)
    | Opt(elements: seq<Element>)
    | OneOf(alternatives: seq<Alternative>)
    | Many(elements: seq<Element>)

  datatype Alternative = Alternative(elements: seq<Element>)

  predicate Digits(s: string) {
    s != [] && forall i :: 0 <= i < |s| ==> '0' <= s[i] <= '9'
  }

  /** The body of a string literal that needs no unescaping. */
  function PlainLiteral(src: Input, pos: nat): Option<string> {
    if pos < |src.tokens| && src.tokens[pos].kind == StringLiteral then
      var text := src.tokens[pos].text;
      var inner := Inner(text);
      if inner == [] || '\\' in inner || text[0] in inner then None else Some(inner)
    else None
  }

  // ---- what a pattern derives ----

  /** `n` identifiers from `p` on, with a dot between each two. */
  predicate DottedName(src: Input, p: nat, n: nat) {
    n == 0 || (DottedName(src, p, n - 1)
               && (n > 1 ==> src.SymbolAt(p + 2 * n - 3) == Some("."))
               && src.Identifier(p + 2 * n - 2).Some?)
  }

  function NameParts(src: Input, p: nat, n: nat): (parts: seq<string>)
    requires DottedName(src, p, n)
    ensures |parts| == n
  {
    if n == 0 then [] else NameParts(src, p, n - 1) + [src.Identifier(p + 2 * n - 2).value]
  }

  lemma {:induction false} DottedFront(src: Input, p: nat, m: nat, n: nat)
    requires DottedName(src, p, n) && m <= n
    ensures DottedName(src, p, m)
    decreases n
  {
    if m < n {
      DottedFront(src, p, m, n - 1);
    }
  }

  ghost predicate DerivesName(e: Element, src: Input, p: nat, q: nat, caps: Captures)
    requires e.Name?
  {
    exists n: nat :: NameOf(e, src, p, n, q, caps)
  }

  predicate NameOf(e: Element, src: Input, p: nat, n: nat, q: nat, caps: Captures)
    requires e.Name?
  {
    && 1 <= n && e.minParts <= n <= e.maxParts && q == p + 2 * n - 1
    && DottedName(src, p, n) && caps == [(e.capture, Parts(NameParts(src, p, n)))]
  }

  /** `e` matches the tokens from `p` up to `q` and captures `caps`. */
  ghost predicate Derives(e: Element, src: Input, p: nat, q: nat, caps: Captures)
    decreases e, 0, 0
  {
    match e
    case Kw(words) =>
      && q == p + |words| && caps == []
      && forall i :: 0 <= i < |words| ==> src.WordAt(p + i) == Some(words[i])
    case Sym(symbol) => q == p + 1 && caps == [] && src.SymbolAt(p) == Some(symbol)
    case Name(_, _, _) => DerivesName(e, src, p, q, caps)
    case Str(captured) =>
      && q == p + 1 && PlainLiteral(src, p).Some?
      && caps == (if captured.Some? then [(captured.value, Text(PlainLiteral(src, p).value))] else [])
    case Int => q == p + 1 && caps == [] && src.WordAt(p).Some? && Digits(src.WordAt(p).value)
    case Column(allowed) =>
      && q == p + 1 && caps == []
      && src.Identifier(p).Some? && src.upper(src.Identifier(p).value) in allowed
    case Rest(capture) =>
      && p < |src.tokens| && q == |src.tokens|
      && caps == [(capture, Range(src.tokens[p].startByte, src.tokens[|src.tokens| - 1].endByte))]
    case Opt(elements) => (q == p && caps == []) || DerivesAll(elements, src, p, q, caps)
    case OneOf(alternatives) =>
      exists i :: 0 <= i < |alternatives| && DerivesAll(alternatives[i].elements, src, p, q, caps)
    case Many(elements) => caps == [] && exists n: nat :: Steps(elements, src, p, q, n)
  }

  /** The elements match one behind the other. */
  ghost predicate DerivesAll(es: seq<Element>, src: Input, p: nat, q: nat, caps: Captures)
    decreases es, 0, 0
  {
    if es == [] then q == p && caps == []
    else exists m: nat, front: Captures, back: Captures ::
           Derives(es[0], src, p, m, front) && DerivesAll(es[1..], src, m, q, back) && caps == front + back
  }

  /** `n` repetitions lead from `p` to `q`: the reflexive-transitive closure, by its length. */
  ghost predicate Steps(es: seq<Element>, src: Input, p: nat, q: nat, n: nat)
    decreases es, 1, n
  {
    if n == 0 then q == p
    else exists m: nat, caps: Captures :: DerivesAll(es, src, p, m, caps) && Steps(es, src, m, q, n - 1)
  }

  /** A derivation of a sequence, cut behind its first element. */
  lemma Split(es: seq<Element>, src: Input, p: nat, q: nat, caps: Captures)
    returns (m: nat, front: Captures, back: Captures)
    requires es != [] && DerivesAll(es, src, p, q, caps)
    ensures Derives(es[0], src, p, m, front) && DerivesAll(es[1..], src, m, q, back) && caps == front + back
  {
    m, front, back :|
      Derives(es[0], src, p, m, front) && DerivesAll(es[1..], src, m, q, back) && caps == front + back;
  }

  // ---- matches stay inside the input ----

  lemma {:induction false} DerivesBounded(e: Element, src: Input, p: nat, q: nat, caps: Captures)
    requires p <= |src.tokens| && Derives(e, src, p, q, caps)
    ensures p <= q <= |src.tokens|
    decreases e, 0, 0
  {
    match e
    case Kw(words) =>
      if words != [] {
        assert src.WordAt(p + (|words| - 1)) == Some(words[|words| - 1]);
      }
    case Name(_, _, _) =>
      var n: nat :| NameOf(e, src, p, n, q, caps);
      assert src.Identifier(p + 2 * n - 2).Some?;
    case Opt(elements) =>
      if DerivesAll(elements, src, p, q, caps) {
        AllBounded(elements, src, p, q, caps);
      }
    case OneOf(alternatives) =>
      var i :| 0 <= i < |alternatives| && DerivesAll(alternatives[i].elements, src, p, q, caps);
      AllBounded(alternatives[i].elements, src, p, q, caps);
    case Many(elements) =>
      var n: nat :| Steps(elements, src, p, q, n);
      StepsBounded(elements, src, p, q, n);
    case _ =>
  }

  lemma {:induction false} AllBounded(es: seq<Element>, src: Input, p: nat, q: nat, caps: Captures)
    requires p <= |src.tokens| && DerivesAll(es, src, p, q, caps)
    ensures p <= q <= |src.tokens|
    decreases es, 0, 0
  {
    if es != [] {
      var m, front, back := Split(es, src, p, q, caps);
      DerivesBounded(es[0], src, p, m, front);
      AllBounded(es[1..], src, m, q, back);
    }
  }

  lemma {:induction false} StepsBounded(es: seq<Element>, src: Input, p: nat, q: nat, n: nat)
    requires p <= |src.tokens| && Steps(es, src, p, q, n)
    ensures p <= q <= |src.tokens|
    decreases es, 1, n
  {
    if n > 0 {
      var m: nat, caps: Captures :| DerivesAll(es, src, p, m, caps) && Steps(es, src, m, q, n - 1);
      AllBounded(es, src, p, m, caps);
      StepsBounded(es, src, m, q, n - 1);
    }
  }

  /** The closure grows at its far end too. */
  lemma {:induction false} StepsAppend(es: seq<Element>, src: Input, p: nat, m: nat, q: nat, caps: Captures, n: nat)
    requires Steps(es, src, p, m, n) && DerivesAll(es, src, m, q, caps)
    ensures Steps(es, src, p, q, n + 1)
    decreases n
  {
    if n == 0 {
      assert Steps(es, src, q, q, 0);
    } else {
      var x: nat, c: Captures :| DerivesAll(es, src, p, x, c) && Steps(es, src, x, m, n - 1);
      StepsAppend(es, src, x, m, q, caps, n - 1);
    }
  }

  // ---- the backtracking match ----

  type Yield = (nat, Captures)

  /** `y` is a derivation of `e` from `p`, its captures behind those so far. */
  ghost predicate Derived(y: Yield, e: Element, src: Input, p: nat, caps: Captures) {
    exists c: Captures :: Derives(e, src, p, y.0, c) && y.1 == caps + c
  }

  ghost predicate DerivedAll(y: Yield, es: seq<Element>, src: Input, p: nat, caps: Captures) {
    exists c: Captures :: DerivesAll(es, src, p, y.0, c) && y.1 == caps + c
  }

  /** `out` lists exactly the derivations of `e` from `p`. */
  ghost predicate Yields(out: seq<Yield>, e: Element, src: Input, p: nat, caps: Captures) {
    && (forall i :: 0 <= i < |out| ==> Derived(out[i], e, src, p, caps))
    && (forall q: nat, c: Captures :: Derives(e, src, p, q, c) ==> (q, caps + c) in out)
  }

  ghost predicate YieldsAll(out: seq<Yield>, es: seq<Element>, src: Input, p: nat, caps: Captures) {
    && (forall i :: 0 <= i < |out| ==> DerivedAll(out[i], es, src, p, caps))
    && (forall q: nat, c: Captures :: DerivesAll(es, src, p, q, c) ==> (q, caps + c) in out)
  }

  function NameYield(e: Element, src: Input, p: nat, caps: Captures, n: nat): Yield
    requires e.Name? && 1 <= n && DottedName(src, p, n)
  {
    (p + 2 * n - 1, caps + [(e.capture, Parts(NameParts(src, p, n)))])
  }

  lemma NameDerived(e: Element, src: Input, p: nat, caps: Captures, n: nat)
    requires e.Name? && 1 <= n && e.minParts <= n <= e.maxParts && DottedName(src, p, n)
    ensures Derived(NameYield(e, src, p, caps, n), e, src, p, caps)
  {
    var c: Captures := [(e.capture, Parts(NameParts(src, p, n)))];
    assert NameOf(e, src, p, n, p + 2 * n - 1, c);
    assert Derives(e, src, p, p + 2 * n - 1, c);
  }

  /** Every name of at most `k` parts is listed. */
  ghost predicate NamesListed(out: seq<Yield>, e: Element, src: Input, p: nat, caps: Captures, k: nat)
    requires e.Name?
  {
    forall n: nat :: 1 <= n <= k && e.minParts <= n && DottedName(src, p, n) ==> NameYield(e, src, p, caps, n) in out
  }

  /** The state of the name loop: `parts` read so far, up to `cursor`, and every name of as many
      parts listed. */
  ghost predicate NameState(out: seq<Yield>, e: Element, src: Input, p: nat, caps: Captures, parts: seq<string>,
                            cursor: nat)
    requires e.Name?
  {
    var k := |parts|;
    && k <= e.maxParts && DottedName(src, p, k) && parts == NameParts(src, p, k)
    && cursor == (if k == 0 then p else p + 2 * k - 1)
    && (forall i :: 0 <= i < |out| ==> Derived(out[i], e, src, p, caps))
    && NamesListed(out, e, src, p, caps, k)
  }

  method MatchName(e: Element, src: Input, p: nat, caps: Captures) returns (out: seq<Yield>)
    requires e.Name?
    ensures Yields(out, e, src, p, caps)
  {
    out := [];
    var parts: seq<string> := [];
    var cursor := p;
    while |parts| < e.maxParts
      invariant NameState(out, e, src, p, caps, parts, cursor)
      decreases e.maxParts - |parts|
    {
      ghost var start := cursor;
      if parts != [] {
        if src.SymbolAt(cursor) != Some(".") {
          NameEnds(out, e, src, p, caps, parts, start);
          return;
        }
        cursor := cursor + 1;
      }
      var part := src.Identifier(cursor);
      if part.None? {
        NameEnds(out, e, src, p, caps, parts, start);
        return;
      }
      ghost var before, read := out, parts;
      parts := parts + [part.value];
      cursor := cursor + 1;
      if |parts| >= e.minParts {
        out := out + [(cursor, caps + [(e.capture, Parts(parts))])];
      }
      NameStep(before, e, src, p, caps, read, start, cursor - 1, parts, out);
    }
    NameEnds(out, e, src, p, caps, parts, cursor);
  }

  lemma NameStep(out: seq<Yield>, e: Element, src: Input, p: nat, caps: Captures, parts: seq<string>, cursor: nat,
                 at: nat, more: seq<string>, listed: seq<Yield>)
    requires e.Name? && NameState(out, e, src, p, caps, parts, cursor) && |parts| < e.maxParts
    requires at == if parts == [] then cursor else cursor + 1
    requires parts != [] ==> src.SymbolAt(cursor) == Some(".")
    requires src.Identifier(at).Some? && more == parts + [src.Identifier(at).value]
    requires listed == if |more| >= e.minParts then out + [(at + 1, caps + [(e.capture, Parts(more))])] else out
    ensures NameState(listed, e, src, p, caps, more, at + 1)
  {
    var k := |more|;
    assert DottedName(src, p, k) && NameParts(src, p, k) == more;
    assert NameYield(e, src, p, caps, k) == (at + 1, caps + [(e.capture, Parts(more))]);
    NameListed(out, e, src, p, caps, k, listed);
  }

  lemma NameListed(out: seq<Yield>, e: Element, src: Input, p: nat, caps: Captures, k: nat, listed: seq<Yield>)
    requires e.Name? && 1 <= k <= e.maxParts && DottedName(src, p, k)
    requires forall i :: 0 <= i < |out| ==> Derived(out[i], e, src, p, caps)
    requires NamesListed(out, e, src, p, caps, k - 1)
    requires listed == if k >= e.minParts then out + [NameYield(e, src, p, caps, k)] else out
    ensures forall i :: 0 <= i < |listed| ==> Derived(listed[i], e, src, p, caps)
    ensures NamesListed(listed, e, src, p, caps, k)
  {
    if k >= e.minParts {
      NameDerived(e, src, p, caps, k);
    }
    forall n: nat | 1 <= n <= k && e.minParts <= n && DottedName(src, p, n)
      ensures NameYield(e, src, p, caps, n) in listed
    {
      if n < k {
        assert NameYield(e, src, p, caps, n) in out;
      }
    }
  }

  lemma NameEnds(out: seq<Yield>, e: Element, src: Input, p: nat, caps: Captures, parts: seq<string>, cursor: nat)
    requires e.Name? && NameState(out, e, src, p, caps, parts, cursor)
    requires || |parts| >= e.maxParts
             || (parts != [] && src.SymbolAt(cursor) != Some("."))
             || src.Identifier(if parts == [] then cursor else cursor + 1).None?
    ensures Yields(out, e, src, p, caps)
  {
    forall q: nat, c: Captures | Derives(e, src, p, q, c)
      ensures (q, caps + c) in out
    {
      var n: nat :| NameOf(e, src, p, n, q, c);
      if n > |parts| {
        DottedFront(src, p, |parts| + 1, n);
        assert false;
      }
      assert (q, caps + c) == NameYield(e, src, p, caps, n);
    }
  }

  /** All ways for one element to match from `p`. */
  method MatchElement(e: Element, src: Input, p: nat, caps: Captures) returns (out: seq<Yield>)
    requires p <= |src.tokens|
    ensures Yields(out, e, src, p, caps)
    decreases e, 0, 0
  {
    assert caps + [] == caps;
    match e
    case Kw(words) =>
      var k := 0;
      while k < |words| && src.WordAt(p + k) == Some(words[k])
        invariant k <= |words| && forall i :: 0 <= i < k ==> src.WordAt(p + i) == Some(words[i])
      {
        k := k + 1;
      }
      out := if k == |words| then [(p + |words|, caps)] else [];
      Fixed(out, e, src, p, p + |words|, caps, []);
    case Sym(symbol) =>
      out := if src.SymbolAt(p) == Some(symbol) then [(p + 1, caps)] else [];
      Fixed(out, e, src, p, p + 1, caps, []);
    case Name(_, _, _) =>
      out := MatchName(e, src, p, caps);
    case Str(captured) =>
      var inner := PlainLiteral(src, p);
      var added: Captures := if inner.Some? && captured.Some? then [(captured.value, Text(inner.value))] else [];
      out := if inner.Some? then [(p + 1, caps + added)] else [];
      Fixed(out, e, src, p, p + 1, caps, added);
    case Int =>
      var word := src.WordAt(p);
      out := if word.Some? && Digits(word.value) then [(p + 1, caps)] else [];
      Fixed(out, e, src, p, p + 1, caps, []);
    case Column(allowed) =>
      var name := src.Identifier(p);
      out := if name.Some? && src.upper(name.value) in allowed then [(p + 1, caps)] else [];
      Fixed(out, e, src, p, p + 1, caps, []);
    case Rest(capture) =>
      var n := |src.tokens|;
      var added: Captures :=
        if p < n then [(capture, Range(src.tokens[p].startByte, src.tokens[n - 1].endByte))] else [];
      out := if p < n then [(n, caps + added)] else [];
      Fixed(out, e, src, p, n, caps, added);
    case Opt(elements) =>
      var more := MatchSequence(elements, src, p, caps);
      out := [(p, caps)] + more;
      OptYields(out, more, e, src, p, caps);
    case OneOf(alternatives) =>
      out := [];
      for i := 0 to |alternatives|
        invariant forall k :: 0 <= k < |out| ==> Derived(out[k], e, src, p, caps)
        invariant forall j, q: nat, c: Captures :: 0 <= j < i && DerivesAll(alternatives[j].elements, src, p, q, c) ==>
                    (q, caps + c) in out
      {
        var more := MatchSequence(alternatives[i].elements, src, p, caps);
        OneOfDerived(more, e, i, src, p, caps);
        out := out + more;
      }
    case Many(elements) =>
      out := MatchMany(elements, src, p, caps);
      ManyYields(out, e, src, p, caps);
  }

  /** A match with at most one outcome. */
  lemma Fixed(out: seq<Yield>, e: Element, src: Input, p: nat, q: nat, caps: Captures, added: Captures)
    requires !e.Name? && !e.Opt? && !e.OneOf? && !e.Many?
    requires out == if Derives(e, src, p, q, added) then [(q, caps + added)] else []
    requires forall r: nat, c: Captures :: Derives(e, src, p, r, c) ==> r == q && c == added
    ensures Yields(out, e, src, p, caps)
  {
  }

  lemma OptYields(out: seq<Yield>, more: seq<Yield>, e: Element, src: Input, p: nat, caps: Captures)
    requires e.Opt? && YieldsAll(more, e.elements, src, p, caps) && out == [(p, caps)] + more
    ensures Yields(out, e, src, p, caps)
  {
    forall i | 0 <= i < |out|
      ensures Derived(out[i], e, src, p, caps)
    {
      if i == 0 {
        assert Derives(e, src, p, p, []) && caps + [] == caps;
      } else {
        assert DerivedAll(more[i - 1], e.elements, src, p, caps);
        var c: Captures :| DerivesAll(e.elements, src, p, more[i - 1].0, c) && more[i - 1].1 == caps + c;
        assert Derives(e, src, p, more[i - 1].0, c);
      }
    }
    assert caps + [] == caps;
  }

  lemma OneOfDerived(more: seq<Yield>, e: Element, j: nat, src: Input, p: nat, caps: Captures)
    requires e.OneOf? && j < |e.alternatives| && YieldsAll(more, e.alternatives[j].elements, src, p, caps)
    ensures forall i :: 0 <= i < |more| ==> Derived(more[i], e, src, p, caps)
  {
  }

  /** All ways for the elements to match one behind the other. */
  method MatchSequence(es: seq<Element>, src: Input, p: nat, caps: Captures) returns (out: seq<Yield>)
    requires p <= |src.tokens|
    ensures YieldsAll(out, es, src, p, caps)
    decreases es, 0, 0
  {
    if es == [] {
      assert caps + [] == caps;
      assert DerivesAll(es, src, p, p, []);
      return [(p, caps)];
    }
    var heads := MatchElement(es[0], src, p, caps);
    out := [];
    for i := 0 to |heads|
      invariant forall k :: 0 <= k < |out| ==> DerivedAll(out[k], es, src, p, caps)
      invariant forall k, q: nat, back: Captures :: 0 <= k < i && DerivesAll(es[1..], src, heads[k].0, q, back) ==>
                  (q, heads[k].1 + back) in out
    {
      HeadBounded(heads[i], es[0], src, p, caps);
      var more := MatchSequence(es[1..], src, heads[i].0, heads[i].1);
      SequenceDerived(more, heads[i], es, src, p, caps);
      out := out + more;
    }
    SequenceComplete(out, heads, es, src, p, caps);
  }

  lemma HeadBounded(head: Yield, e: Element, src: Input, p: nat, caps: Captures)
    requires p <= |src.tokens| && Derived(head, e, src, p, caps)
    ensures p <= head.0 <= |src.tokens|
  {
    var c: Captures :| Derives(e, src, p, head.0, c) && head.1 == caps + c;
    DerivesBounded(e, src, p, head.0, c);
  }

  lemma SequenceDerived(more: seq<Yield>, head: Yield, es: seq<Element>, src: Input, p: nat, caps: Captures)
    requires es != [] && Derived(head, es[0], src, p, caps)
    requires YieldsAll(more, es[1..], src, head.0, head.1)
    ensures forall i :: 0 <= i < |more| ==> DerivedAll(more[i], es, src, p, caps)
  {
    var front: Captures :| Derives(es[0], src, p, head.0, front) && head.1 == caps + front;
    forall i | 0 <= i < |more|
      ensures DerivedAll(more[i], es, src, p, caps)
    {
      assert DerivedAll(more[i], es[1..], src, head.0, head.1);
      var back: Captures :| DerivesAll(es[1..], src, head.0, more[i].0, back) && more[i].1 == head.1 + back;
      assert DerivesAll(es, src, p, more[i].0, front + back);
      assert caps + front + back == caps + (front + back);
    }
  }

  lemma SequenceComplete(out: seq<Yield>, heads: seq<Yield>, es: seq<Element>, src: Input, p: nat, caps: Captures)
    requires es != [] && Yields(heads, es[0], src, p, caps)
    requires forall k, q: nat, back: Captures :: 0 <= k < |heads| && DerivesAll(es[1..], src, heads[k].0, q, back) ==>
               (q, heads[k].1 + back) in out
    ensures forall q: nat, c: Captures :: DerivesAll(es, src, p, q, c) ==> (q, caps + c) in out
  {
    forall q: nat, c: Captures | DerivesAll(es, src, p, q, c)
      ensures (q, caps + c) in out
    {
      var m, front, back := Split(es, src, p, q, c);
      assert (m, caps + front) in heads;
      var k :| 0 <= k < |heads| && heads[k] == (m, caps + front);
      assert (q, heads[k].1 + back) in out;
      assert caps + front + back == caps + (front + back);
    }
  }

  // ---- repetition ----

  ghost predicate Reachable(es: seq<Element>, src: Input, p: nat, q: nat) {
    exists n: nat :: Steps(es, src, p, q, n)
  }

  /** Each reachable position once, with nothing captured. */
  ghost predicate ClosureOnce(out: seq<Yield>, es: seq<Element>, src: Input, p: nat, caps: Captures) {
    && (forall i :: 0 <= i < |out| ==> out[i].1 == caps && Reachable(es, src, p, out[i].0))
    && (forall i, j :: 0 <= i < j < |out| ==> out[i].0 != out[j].0)
    && (forall q: nat :: Reachable(es, src, p, q) ==> (q, caps) in out)
  }

  lemma ManyYields(out: seq<Yield>, e: Element, src: Input, p: nat, caps: Captures)
    requires e.Many? && ClosureOnce(out, e.elements, src, p, caps)
    ensures Yields(out, e, src, p, caps)
  {
    assert caps + [] == caps;
    forall i | 0 <= i < |out|
      ensures Derived(out[i], e, src, p, caps)
    {
      assert Derives(e, src, p, out[i].0, []);
    }
  }

  /** The worklist of `Many`: positions still to be extended, and all positions met. It stops
      even when the body matches without consuming anything. */
  method MatchMany(es: seq<Element>, src: Input, p: nat, caps: Captures) returns (out: seq<Yield>)
    requires p <= |src.tokens|
    ensures ClosureOnce(out, es, src, p, caps)
    decreases es, 1, 0
  {
    out := [];
    var pending, seen := [p], {p};
    ghost var done: set<nat> := {};
    ghost var all := Positions(|src.tokens|);
    assert Steps(es, src, p, p, 0);
    while pending != []
      invariant done <= seen <= all && p in seen
      invariant forall x :: x in pending <==> x in seen && x !in done
      invariant forall i, j :: 0 <= i < j < |pending| ==> pending[i] != pending[j]
      invariant forall x :: x in seen ==> Reachable(es, src, p, x)
      invariant Listed(out, done, caps)
      invariant forall x: nat, q: nat, c: Captures :: x in done && DerivesAll(es, src, x, q, c) ==> q in seen
      decreases all - done
    {
      var current := pending[|pending| - 1];
      pending := pending[..|pending| - 1];
      out := out + [(current, caps)];
      done := done + {current};
      var nexts := MatchSequence(es, src, current, caps);
      ghost var before := seen;
      for i := 0 to |nexts|
        invariant before <= seen <= all
        invariant forall x :: x in pending <==> x in seen && x !in done
        invariant forall i, j :: 0 <= i < j < |pending| ==> pending[i] != pending[j]
        invariant forall x :: x in seen ==> Reachable(es, src, p, x)
        invariant forall k :: 0 <= k < i ==> nexts[k].0 in seen
      {
        StepReachable(nexts[i], es, src, p, current, caps);
        if nexts[i].0 > current && nexts[i].0 !in seen {
          seen := seen + {nexts[i].0};
          pending := pending + [nexts[i].0];
        }
      }
      forall q: nat, c: Captures | DerivesAll(es, src, current, q, c)
        ensures q in seen
      {
        var k :| 0 <= k < |nexts| && nexts[k] == (q, caps + c);
      }
    }
    forall q: nat | Reachable(es, src, p, q)
      ensures (q, caps) in out
    {
      var n: nat :| Steps(es, src, p, q, n);
      ClosedReaches(es, src, seen, p, q, n);
    }
  }

  function Positions(n: nat): (r: set<nat>)
    ensures forall x: nat :: x in r <==> x <= n
  {
    if n == 0 then {0} else Positions(n - 1) + {n}
  }

  /** `out` lists each position of `done` once. */
  predicate Listed(out: seq<Yield>, done: set<nat>, caps: Captures) {
    && (forall i :: 0 <= i < |out| ==> out[i].0 in done && out[i].1 == caps)
    && (forall i, j :: 0 <= i < j < |out| ==> out[i].0 != out[j].0)
    && (forall x :: x in done ==> (x, caps) in out)
  }

  lemma StepReachable(y: Yield, es: seq<Element>, src: Input, p: nat, current: nat, caps: Captures)
    requires current <= |src.tokens| && Reachable(es, src, p, current) && DerivedAll(y, es, src, current, caps)
    ensures current <= y.0 <= |src.tokens| && Reachable(es, src, p, y.0)
  {
    var c: Captures :| DerivesAll(es, src, current, y.0, c) && y.1 == caps + c;
    AllBounded(es, src, current, y.0, c);
    var n: nat :| Steps(es, src, p, current, n);
    StepsAppend(es, src, p, current, y.0, c, n);
  }

  lemma {:induction false} ClosedReaches(es: seq<Element>, src: Input, closed: set<nat>, p: nat, q: nat, n: nat)
    requires p in closed && Steps(es, src, p, q, n)
    requires forall x: nat, y: nat, c: Captures :: x in closed && DerivesAll(es, src, x, y, c) ==> y in closed
    ensures q in closed
    decreases n
  {
    if n > 0 {
      var m: nat, caps: Captures :| DerivesAll(es, src, p, m, caps) && Steps(es, src, m, q, n - 1);
      ClosedReaches(es, src, closed, m, q, n - 1);
    }
  }
}
