/**
 The grammar of the scan in its own terms: what each kind of token looks like character by character,
 which texts are accepted, and at which place and for what reason the others are refused.
 */
module SqlTokenGrammar {
  import opened Wrappers
  import opened SqlTokens
  import opened SqlTokensTheorems
  import opened SqlTokensContent

  // ---- characters ----

  predicate BlankChar(c: char) { c in {' ', '\t', '\r', '\n'} }

  /** A letter, a digit, `_` or `$`. */
  predicate Letter(c: char) {
    var n := c as int;
    97 <= n < 123 || 65 <= n < 91 || 48 <= n < 58 || n == 95 || n == 36
  }

  /** Neither a byte order mark nor a control, separator or format character. */
  predicate Plain(u: Unicode, c: char) {
    var n := c as int;
    && (n >= 32 || n == 9 || n == 10 || n == 13) && !(127 <= n < 160)
    && n != 0x2028 && n != 0x2029 && n != 0xFEFF && (n >= 128 ==> !u.format(c))
  }

  predicate AllPlain(u: Unicode, s: string, a: nat, b: nat) {
    a <= b <= |s| && forall i :: a <= i < b ==> Plain(u, s[i])
  }

  lemma CharactersAgree(u: Unicode, c: char)
    ensures Permitted(u, c) <==> Plain(u, c)
    ensures WordChar(c) <==> Letter(c)
    ensures Whitespace(c) <==> BlankChar(c)
    ensures Letter(c) || c == ' ' || c == '\t' ==> Plain(u, c) && Ascii(c)
  {
  }

  // ---- tokens ----

  predicate PairAt(s: string, p: nat, a: char, b: char) { p + 1 < |s| && s[p] == a && s[p + 1] == b }

  /** From `#` or `--` up to the end of the line. */
  predicate LineComment(u: Unicode, s: string, a: nat, b: nat) {
    && a < b <= |s| && (s[a] == '#' || PairAt(s, a, '-', '-'))
    && AllPlain(u, s, a, b) && (forall i :: a <= i < b ==> s[i] != '\r' && s[i] != '\n')
    && (b == |s| || s[b] == '\r' || s[b] == '\n')
  }

  predicate Hint(s: string, a: nat) { PairAt(s, a, '/', '*') && a + 2 < |s| && (s[a + 2] == '+' || s[a + 2] == '!') }

  /** From the opening that is no hint up to the first closing behind it. */
  predicate BlockComment(u: Unicode, s: string, a: nat, b: nat) {
    && a + 4 <= b <= |s| && PairAt(s, a, '/', '*') && !Hint(s, a)
    && AllPlain(u, s, a, b) && PairAt(s, b - 2, '*', '/')
    && forall i :: a + 2 <= i < b - 2 ==> !PairAt(s, i, '*', '/')
  }

  predicate QuotedText(u: Unicode, s: string, a: nat, b: nat, quote: char, backslash: bool) {
    && a + 2 <= b <= |s| && s[a] == quote && s[b - 1] == quote && !(b < |s| && s[b] == quote)
    && Body(u, quote, backslash, s[a + 1..b - 1])
  }

  /** All letters, and no further one behind them. */
  predicate WholeWord(s: string, a: nat, b: nat) {
    a < b <= |s| && (forall i :: a <= i < b ==> Letter(s[i])) && !(b < |s| && Letter(s[b]))
  }

  /** The character starts a token of another kind. */
  predicate StartsOther(s: string, a: nat)
    requires a < |s|
  {
    || Letter(s[a]) || s[a] == '\'' || s[a] == '"' || s[a] == '`' || s[a] == '#'
    || PairAt(s, a, '-', '-') || PairAt(s, a, '/', '*')
  }

  predicate OneSymbol(u: Unicode, s: string, a: nat, b: nat) {
    a < |s| && b == a + 1 && s[a] as int < 128 && Plain(u, s[a]) && !BlankChar(s[a]) && !StartsOther(s, a)
  }

  /** `t` is a token of the text. */
  predicate TokenOf(u: Unicode, s: string, t: Span) {
    match t.kind
    case Comment => LineComment(u, s, t.start, t.end) || BlockComment(u, s, t.start, t.end)
    case StringLiteral => QuotedText(u, s, t.start, t.end, '\'', true) || QuotedText(u, s, t.start, t.end, '"', true)
    case QuotedIdentifier => QuotedText(u, s, t.start, t.end, '`', false)
    case Word => WholeWord(s, t.start, t.end)
    case Symbol => OneSymbol(u, s, t.start, t.end)
  }

  // ---- where each kind ends ----

  lemma {:induction false} WordEnds(s: string, p: nat, e: nat)
    requires p <= |s|
    ensures WordEnd(s, p) == e
            <==> p <= e <= |s| && (forall i :: p <= i < e ==> Letter(s[i])) && !(e < |s| && Letter(s[e]))
    decreases |s| - p
  {
    if p < |s| && WordChar(s[p]) {
      WordEnds(s, p + 1, e);
    }
  }

  lemma {:induction false} LineEnds(u: Unicode, s: string, p: nat, e: nat)
    requires p <= |s|
    ensures LineEnd(u, s, p) == At(e)
            <==> && AllPlain(u, s, p, e) && (forall i :: p <= i < e ==> s[i] != '\r' && s[i] != '\n')
                 && (e == |s| || s[e] == '\r' || s[e] == '\n')
    decreases |s| - p
  {
    if p < |s| && !LineBreak(s[p]) {
      LineEnds(u, s, p + 1, e);
    }
  }

  lemma {:induction false} BlockEnds(u: Unicode, s: string, p: nat, e: nat)
    requires p <= |s|
    ensures BlockEnd(u, s, p) == At(e)
            <==> && p + 2 <= e <= |s| && AllPlain(u, s, p, e) && PairAt(s, e - 2, '*', '/')
                 && forall i :: p <= i < e - 2 ==> !PairAt(s, i, '*', '/')
    decreases |s| - p
  {
    if p < |s| {
      if PairAt(s, p, '*', '/') {
        assert BlockEnd(u, s, p) == At(p + 2);
      } else {
        BlockEnds(u, s, p + 1, e);
      }
    }
  }

  /** The token that the scan reads at a place, over the kinds one by one. */
  lemma CommentIff(u: Unicode, s: string, a: nat, b: nat)
    requires a < |s| && KindAt(s, a) == Comment
    ensures EndAt(u, s, a) == At(b) <==> LineComment(u, s, a, b) || BlockComment(u, s, a, b)
  {
    if s[a] == '/' {
      BlockEnds(u, s, a + 2, b);
    } else {
      LineEnds(u, s, a, b);
    }
  }

  lemma QuotedIff(u: Unicode, s: string, a: nat, b: nat)
    requires a < |s| && (KindAt(s, a) == StringLiteral || KindAt(s, a) == QuotedIdentifier)
    ensures EndAt(u, s, a) == At(b) <==> QuotedText(u, s, a, b, s[a], KindAt(s, a) == StringLiteral)
  {
    QuotedGrammar(u, s, a + 1, s[a], KindAt(s, a) == StringLiteral, b);
  }

  lemma PlainIff(u: Unicode, s: string, a: nat, b: nat)
    requires a < |s| && !Whitespace(s[a]) && (KindAt(s, a) == Word || KindAt(s, a) == Symbol)
    ensures EndAt(u, s, a) == At(b)
            <==> if KindAt(s, a) == Word then WholeWord(s, a, b) else OneSymbol(u, s, a, b)
  {
    CharactersAgree(u, s[a]);
    if KindAt(s, a) == Word {
      WordEnds(s, a + 1, b);
    }
  }

  lemma StartOf(u: Unicode, s: string, t: Span)
    requires TokenOf(u, s, t)
    ensures t.start < t.end <= |s| && !Whitespace(s[t.start]) && KindAt(s, t.start) == t.kind
  {
    CharactersAgree(u, s[t.start]);
  }

  /** The tokens of the scan are the tokens of the grammar. */
  lemma GrammarIff(u: Unicode, s: string, t: Span)
    ensures Token(u, s, t) <==> TokenOf(u, s, t)
  {
    if TokenOf(u, s, t) {
      StartOf(u, s, t);
    }
    if t.start < |s| && !Whitespace(s[t.start]) && KindAt(s, t.start) == t.kind {
      match t.kind
      case Comment => CommentIff(u, s, t.start, t.end);
      case StringLiteral => QuotedIff(u, s, t.start, t.end);
      case QuotedIdentifier => QuotedIff(u, s, t.start, t.end);
      case _ => PlainIff(u, s, t.start, t.end);
    }
  }

  // ---- accepted texts ----

  /** The text up to `till` is made of these tokens, in their order, with white space between them. */
  predicate MadeOf(u: Unicode, s: string, ts: seq<Span>, till: nat) {
    && till <= |s| && (forall i :: 0 <= i < |ts| ==> TokenOf(u, s, ts[i]))
    && (ts != [] ==> ts[|ts| - 1].end <= till)
    && (forall i :: 0 < i < |ts| ==> ts[i - 1].end <= ts[i].start)
    && forall p :: 0 <= p < till && !BlankChar(s[p]) ==> exists i :: 0 <= i < |ts| && ts[i].start <= p < ts[i].end
  }

  predicate LoneSemicolon(s: string, t: Span) { t.kind == Symbol && t.start < |s| && s[t.start] == ';' }

  /** Written in any case, the word is `upper`. */
  predicate Spells(s: string, t: Span, upper: string) {
    && t.kind == Word && t.start <= t.end <= |s| && t.end - t.start == |upper|
    && forall i :: 0 <= i < |upper| ==>
                     s[t.start + i] == upper[i]
                     || ('A' <= upper[i] <= 'Z' && s[t.start + i] as int == upper[i] as int + 32)
  }

  lemma {:induction false} InOrder(u: Unicode, s: string, ts: seq<Span>, till: nat, i: nat, j: nat)
    requires MadeOf(u, s, ts, till) && i < j < |ts|
    ensures ts[i].end <= ts[j].start
    decreases j - i
  {
    assert ts[j - 1].end <= ts[j].start;
    if i + 1 < j {
      InOrder(u, s, ts, till, i, j - 1);
      assert TokenOf(u, s, ts[j - 1]);
      StartOf(u, s, ts[j - 1]);
    }
  }

  lemma TilesAreMadeOf(u: Unicode, s: string, ts: seq<Span>, till: nat)
    requires till <= |s| && Tiles(u, s, 0, ts, till)
    ensures MadeOf(u, s, ts, till)
  {
    forall i | 0 <= i < |ts|
      ensures TokenOf(u, s, ts[i])
    {
      assert Token(u, s, ts[i]);
      GrammarIff(u, s, ts[i]);
    }
    forall i | 0 < i < |ts|
      ensures ts[i - 1].end <= ts[i].start
    {
      assert Blank(s, GapStart(0, ts, i), GapEnd(ts, i, till));
    }
    assert Blank(s, GapStart(0, ts, |ts|), GapEnd(ts, |ts|, till));
    forall p | 0 <= p < till && !BlankChar(s[p])
      ensures exists i :: 0 <= i < |ts| && ts[i].start <= p < ts[i].end
    {
      CharactersAgree(u, s[p]);
      var i := Covered(u, s, 0, ts, till, p);
    }
  }

  lemma MadeOfTiles(u: Unicode, s: string, ts: seq<Span>, till: nat)
    requires MadeOf(u, s, ts, till)
    ensures Tiles(u, s, 0, ts, till)
  {
    forall i | 0 <= i < |ts|
      ensures Token(u, s, ts[i])
    {
      GrammarIff(u, s, ts[i]);
      assert TokenOf(u, s, ts[i]);
    }
    forall i | 0 <= i <= |ts|
      ensures Blank(s, GapStart(0, ts, i), GapEnd(ts, i, till))
    {
      GapIsBlank(u, s, ts, till, i);
    }
  }

  /** The tokens lie one behind the other. */
  predicate Ordered(ts: seq<Span>, till: nat) {
    && (forall i :: 0 <= i < |ts| ==> ts[i].start < ts[i].end <= till)
    && forall i, j :: 0 <= i < j < |ts| ==> ts[i].end <= ts[j].start
  }

  lemma TokenLies(u: Unicode, s: string, ts: seq<Span>, till: nat, i: nat)
    requires MadeOf(u, s, ts, till) && i < |ts|
    ensures ts[i].start < ts[i].end <= till
  {
    var last := |ts| - 1;
    StartOf(u, s, ts[i]);
    StartOf(u, s, ts[last]);
    if i < last {
      InOrder(u, s, ts, till, i, last);
    }
  }

  lemma MadeOfOrdered(u: Unicode, s: string, ts: seq<Span>, till: nat)
    requires MadeOf(u, s, ts, till)
    ensures Ordered(ts, till)
  {
    forall i, j | 0 <= i < j < |ts|
      ensures ts[i].end <= ts[j].start
    {
      InOrder(u, s, ts, till, i, j);
    }
    forall i | 0 <= i < |ts|
      ensures ts[i].start < ts[i].end <= till
    {
      TokenLies(u, s, ts, till, i);
    }
  }

  lemma GapIsBlank(u: Unicode, s: string, ts: seq<Span>, till: nat, i: nat)
    requires MadeOf(u, s, ts, till) && i <= |ts|
    ensures Blank(s, GapStart(0, ts, i), GapEnd(ts, i, till))
  {
    var a, b := GapStart(0, ts, i), GapEnd(ts, i, till);
    MadeOfOrdered(u, s, ts, till);
    GapLies(ts, till, i);
    forall p | a <= p < b
      ensures Whitespace(s[p])
    {
      CharactersAgree(u, s[p]);
      forall j | 0 <= j < |ts|
        ensures !(ts[j].start <= p < ts[j].end)
      {
        OutsideGap(ts, till, i, j);
      }
    }
  }

  lemma GapLies(ts: seq<Span>, till: nat, i: nat)
    requires Ordered(ts, till) && i <= |ts|
    ensures GapStart(0, ts, i) <= GapEnd(ts, i, till) <= till
  {
    assert 0 < i < |ts| ==> ts[i - 1].end <= ts[i].start;
  }

  lemma OutsideGap(ts: seq<Span>, till: nat, i: nat, j: nat)
    requires Ordered(ts, till) && i <= |ts| && j < |ts|
    ensures ts[j].end <= GapStart(0, ts, i) || GapEnd(ts, i, till) <= ts[j].start
  {
    if j < i - 1 {
      assert ts[j].end <= ts[i - 1].start;
    } else if j > i {
      assert ts[i].end <= ts[j].start;
    }
  }

  // ---- the verdict ----

  /** Something that is no comment stands behind a `;`. */
  predicate BehindSemicolon(s: string, ts: seq<Span>) {
    exists i, j :: 0 <= i < j < |ts| && LoneSemicolon(s, ts[i]) && ts[j].kind != Comment
  }

  /** The two tokens follow each other but for comments. */
  predicate Adjacent(ts: seq<Span>, i: nat, j: nat)
    requires i < |ts| && j < |ts|
  {
    i < j && ts[i].kind != Comment && ts[j].kind != Comment && forall k :: i < k < j ==> ts[k].kind == Comment
  }

  predicate IntoTarget(s: string, t: Span, n: Span) {
    Spells(s, t, "INTO") && (Spells(s, n, "OUTFILE") || Spells(s, n, "DUMPFILE"))
  }

  predicate Exports(s: string, ts: seq<Span>) {
    exists i, j :: 0 <= i < |ts| && 0 <= j < |ts| && Adjacent(ts, i, j) && IntoTarget(s, ts[i], ts[j])
  }

  predicate HasContent(s: string, ts: seq<Span>) {
    exists i :: 0 <= i < |ts| && ts[i].kind != Comment && !LoneSemicolon(s, ts[i])
  }

  lemma SpellsIff(s: string, t: Span, upper: string)
    requires t.start <= t.end <= |s| && forall i :: 0 <= i < |upper| ==> 'A' <= upper[i] <= 'Z'
    ensures WordIs(s, t, upper) <==> Spells(s, t, upper)
  {
    var w := s[t.start..t.end];
    if WordIs(s, t, upper) {
      forall i | 0 <= i < |upper|
        ensures s[t.start + i] == upper[i] || ('A' <= upper[i] <= 'Z' && s[t.start + i] as int == upper[i] as int + 32)
      {
        assert UpperWord(w)[i] == Upper(w[i]) && w[i] == s[t.start + i];
      }
    }
    if Spells(s, t, upper) {
      forall i | 0 <= i < |w|
        ensures UpperWord(w)[i] == upper[i]
      {
        assert w[i] == s[t.start + i];
      }
    }
  }

  lemma {:induction false} SignificantIff(ts: seq<Span>, t: Span)
    ensures t in Significant(ts) <==> t in ts && t.kind != Comment
  {
    if ts != [] {
      SignificantIff(ts[1..], t);
    }
  }

  lemma SignificantHead(t: Span, ts: seq<Span>)
    ensures Significant([t] + ts) == (if t.kind == Comment then [] else [t]) + Significant(ts)
  {
    assert ([t] + ts)[1..] == ts;
  }

  lemma {:induction false} SemicolonsIff(s: string, ts: seq<Span>)
    ensures SeveralStatements(s, Significant(ts)) <==> BehindSemicolon(s, ts)
  {
    if ts != [] {
      SemicolonsIff(s, ts[1..]);
      SemicolonsStep(s, ts[0], ts[1..]);
      assert ts == [ts[0]] + ts[1..];
    }
  }

  lemma SemicolonsStep(s: string, t: Span, rest: seq<Span>)
    requires SeveralStatements(s, Significant(rest)) <==> BehindSemicolon(s, rest)
    ensures SeveralStatements(s, Significant([t] + rest)) <==> BehindSemicolon(s, [t] + rest)
  {
    SignificantHead(t, rest);
    BehindHead(s, t, rest);
    SignificantSome(rest);
    if t.kind == Comment {
      assert [] + Significant(rest) == Significant(rest);
    } else {
      SeveralHead(s, t, Significant(rest));
    }
  }

  lemma SignificantSome(ts: seq<Span>)
    ensures Significant(ts) != [] <==> exists n :: n in ts && n.kind != Comment
  {
    if n :| n in ts && n.kind != Comment {
      SignificantIff(ts, n);
    }
    if Significant(ts) != [] {
      SignificantIff(ts, Significant(ts)[0]);
    }
  }

  lemma SeveralHead(s: string, t: Span, sig: seq<Span>)
    ensures SeveralStatements(s, [t] + sig) <==> (IsSemicolon(s, t) && sig != []) || SeveralStatements(s, sig)
  {
    var all := [t] + sig;
    if i :| 0 <= i < |sig| - 1 && IsSemicolon(s, sig[i]) {
      assert all[i + 1] == sig[i];
    }
    if IsSemicolon(s, t) && sig != [] {
      assert all[0] == t;
    }
    if i :| 0 <= i < |all| - 1 && IsSemicolon(s, all[i]) {
      assert i > 0 ==> sig[i - 1] == all[i];
    }
  }

  lemma BehindHead(s: string, t: Span, rest: seq<Span>)
    ensures BehindSemicolon(s, [t] + rest)
            <==> (LoneSemicolon(s, t) && exists n :: n in rest && n.kind != Comment) || BehindSemicolon(s, rest)
  {
    var all := [t] + rest;
    if i, j :| 0 <= i < j < |rest| && LoneSemicolon(s, rest[i]) && rest[j].kind != Comment {
      assert all[i + 1] == rest[i] && all[j + 1] == rest[j];
    }
    if LoneSemicolon(s, t) && exists n :: n in rest && n.kind != Comment {
      var j :| 0 <= j < |rest| && rest[j].kind != Comment;
      assert all[0] == t && all[j + 1] == rest[j];
    }
    if i, j :| 0 <= i < j < |all| && LoneSemicolon(s, all[i]) && all[j].kind != Comment {
      assert all[j] == rest[j - 1] && rest[j - 1] in rest;
      assert i > 0 ==> all[i] == rest[i - 1];
    }
  }

  /** The first token that is no comment. */
  lemma {:induction false} FirstSignificant(ts: seq<Span>) returns (j: nat)
    requires Significant(ts) != []
    ensures j < |ts| && ts[j] == Significant(ts)[0] && ts[j].kind != Comment
    ensures forall k :: 0 <= k < j ==> ts[k].kind == Comment
  {
    j := 0;
    if ts[0].kind == Comment {
      j := FirstSignificant(ts[1..]);
      j := j + 1;
      assert forall k :: 1 <= k < j ==> ts[k] == ts[1..][k - 1];
    }
  }

  lemma {:induction false} ExportsIff(s: string, ts: seq<Span>)
    requires Within(s, ts)
    ensures ExportsToFile(s, Significant(ts)) <==> Exports(s, ts)
  {
    if ts != [] {
      ExportsIff(s, ts[1..]);
      assert ts == [ts[0]] + ts[1..];
      ExportsStep(s, ts[0], ts[1..]);
    }
  }

  lemma ExportsStep(s: string, t: Span, rest: seq<Span>)
    requires Within(s, [t] + rest)
    requires ExportsToFile(s, Significant(rest)) <==> Exports(s, rest)
    ensures ExportsToFile(s, Significant([t] + rest)) <==> Exports(s, [t] + rest)
  {
    SignificantHead(t, rest);
    ExportsLater(s, t, rest);
    if t.kind == Comment {
      assert [] + Significant(rest) == Significant(rest);
      CommentExportsNothing(s, t, rest);
    } else {
      ExportsHead(s, t, Significant(rest));
      FirstExport(s, t, rest);
    }
  }

  lemma CommentExportsNothing(s: string, t: Span, rest: seq<Span>)
    requires t.kind == Comment
    ensures !ExportsFrom(s, [t] + rest, 0)
  {
  }

  lemma ExportsHead(s: string, t: Span, sig: seq<Span>)
    ensures ExportsToFile(s, [t] + sig) <==> (sig != [] && IntoFile(s, t, sig[0])) || ExportsToFile(s, sig)
  {
    var all := [t] + sig;
    if i :| 0 <= i < |sig| - 1 && IntoFile(s, sig[i], sig[i + 1]) {
      assert all[i + 1] == sig[i] && all[i + 2] == sig[i + 1];
    }
    if sig != [] && IntoFile(s, t, sig[0]) {
      assert all[0] == t && all[0 + 1] == sig[0];
    }
    if i :| 0 <= i < |all| - 1 && IntoFile(s, all[i], all[i + 1]) {
      assert i > 0 ==> sig[i - 1] == all[i] && sig[i - 1 + 1] == all[i + 1];
    }
  }

  predicate ExportsFrom(s: string, ts: seq<Span>, i: nat)
    requires i < |ts|
  {
    exists j :: 0 <= j < |ts| && Adjacent(ts, i, j) && IntoTarget(s, ts[i], ts[j])
  }

  lemma ExportsLater(s: string, t: Span, rest: seq<Span>)
    ensures Exports(s, [t] + rest) <==> ExportsFrom(s, [t] + rest, 0) || Exports(s, rest)
  {
    if Exports(s, rest) {
      ExportsOfRest(s, t, rest);
    }
    if Exports(s, [t] + rest) {
      ExportsOfAll(s, t, rest);
    }
  }

  lemma ExportsOfRest(s: string, t: Span, rest: seq<Span>)
    requires Exports(s, rest)
    ensures Exports(s, [t] + rest)
  {
    var i, j :| 0 <= i < |rest| && 0 <= j < |rest| && Adjacent(rest, i, j) && IntoTarget(s, rest[i], rest[j]);
    AdjacentBehind(t, rest, i, j);
  }

  lemma ExportsOfAll(s: string, t: Span, rest: seq<Span>)
    requires Exports(s, [t] + rest)
    ensures ExportsFrom(s, [t] + rest, 0) || Exports(s, rest)
  {
    var all := [t] + rest;
    var i, j :| 0 <= i < |all| && 0 <= j < |all| && Adjacent(all, i, j) && IntoTarget(s, all[i], all[j]);
    if i > 0 {
      AdjacentBehind(t, rest, i - 1, j - 1);
    }
  }

  lemma AdjacentBehind(t: Span, rest: seq<Span>, i: nat, j: nat)
    requires i < |rest| && j < |rest|
    ensures var all := [t] + rest;
            && all[i + 1] == rest[i] && all[j + 1] == rest[j]
            && (Adjacent(all, i + 1, j + 1) <==> Adjacent(rest, i, j))
  {
    var all := [t] + rest;
    assert forall k :: 0 <= k < |rest| ==> all[k + 1] == rest[k];
    if Adjacent(all, i + 1, j + 1) {
      forall k | i < k < j
        ensures rest[k].kind == Comment
      {
        assert all[k + 1].kind == Comment;
      }
    }
  }

  lemma IntoIff(s: string, t: Span, n: Span)
    requires t.start <= t.end <= |s| && n.start <= n.end <= |s|
    ensures IntoFile(s, t, n) <==> IntoTarget(s, t, n)
  {
    SpellsIff(s, t, "INTO");
    SpellsIff(s, n, "OUTFILE");
    SpellsIff(s, n, "DUMPFILE");
  }

  lemma FirstExport(s: string, t: Span, rest: seq<Span>)
    requires t.kind != Comment && Within(s, [t] + rest)
    ensures ExportsFrom(s, [t] + rest, 0) <==> Significant(rest) != [] && IntoFile(s, t, Significant(rest)[0])
  {
    var all := [t] + rest;
    assert all[0] == t;
    if Significant(rest) != [] {
      var f := FirstSignificant(rest);
      assert all[f + 1] == rest[f];
      IntoIff(s, all[0], all[f + 1]);
      forall k | 0 < k < f + 1
        ensures all[k].kind == Comment
      {
        assert all[k] == rest[k - 1];
      }
      assert Adjacent(all, 0, f + 1);
      if j :| 0 <= j < |all| && Adjacent(all, 0, j) && IntoTarget(s, all[0], all[j]) {
        assert all[j] == rest[j - 1];
        assert j == f + 1;
      }
    } else if j :| 0 <= j < |all| && Adjacent(all, 0, j) {
      assert all[j] == rest[j - 1];
      SignificantIff(rest, rest[j - 1]);
    }
  }

  lemma ContentIff(s: string, ts: seq<Span>)
    requires !SeveralStatements(s, Significant(ts))
    ensures Statement(s, Significant(ts)) != [] <==> HasContent(s, ts)
  {
    var sig := Significant(ts);
    if i :| 0 <= i < |ts| && ts[i].kind != Comment && !LoneSemicolon(s, ts[i]) {
      SignificantIff(ts, ts[i]);
      var k :| 0 <= k < |sig| && sig[k] == ts[i];
    }
    if Statement(s, sig) != [] {
      SignificantIff(ts, sig[0]);
      var i :| 0 <= i < |ts| && ts[i] == sig[0];
      assert |sig| > 1 ==> !IsSemicolon(s, sig[0]);
    }
  }

  lemma LexedIff(u: Unicode, s: string, ts: seq<Span>)
    ensures Lex(u, s, 0) == Spans(ts) <==> MadeOf(u, s, ts, |s|)
  {
    LexIsTiling(u, s, 0, ts);
    if MadeOf(u, s, ts, |s|) {
      MadeOfTiles(u, s, ts, |s|);
    }
    if Tiles(u, s, 0, ts, |s|) {
      TilesAreMadeOf(u, s, ts, |s|);
    }
  }

  lemma PassesIff(u: Unicode, s: string, ts: seq<Span>)
    requires MadeOf(u, s, ts, |s|)
    ensures Judge(s, Significant(ts)) == None <==> !BehindSemicolon(s, ts) && !Exports(s, ts) && HasContent(s, ts)
  {
    MadeOfOrdered(u, s, ts, |s|);
    SemicolonsIff(s, ts);
    ExportsIff(s, ts);
    if !SeveralStatements(s, Significant(ts)) {
      ContentIff(s, ts);
    }
  }

  /** A text is accepted, with these tokens, exactly if it has no byte order mark, is made of them, has nothing
      but comments behind a `;`, exports to no file and has a token besides comments and `;`. */
  lemma AcceptedIff(u: Unicode, s: string, ts: seq<Span>)
    ensures ScanText(u, s) == Spans(ts)
            <==> && (forall i :: 0 <= i < |s| ==> s[i] as int != 0xFEFF) && MadeOf(u, s, ts, |s|)
                 && !BehindSemicolon(s, ts) && !Exports(s, ts) && HasContent(s, ts)
  {
    LexedIff(u, s, ts);
    if MadeOf(u, s, ts, |s|) {
      PassesIff(u, s, ts);
    }
    assert BOM in s <==> exists i :: 0 <= i < |s| && s[i] as int == 0xFEFF;
  }

  // ---- refusals ----

  /** Why the first character from `p` on that is not plain stops the scan. */
  function FirstReason(u: Unicode, s: string, p: nat): Option<Reason>
    requires p <= |s|
    decreases |s| - p
  {
    if p == |s| then None
    else if Plain(u, s[p]) then FirstReason(u, s, p + 1)
    else Some(if s[p] as int == 0xFEFF then Bom else ControlCharacter)
  }

  /** Why no token starts at `p`, where none does. */
  function ReasonAt(u: Unicode, s: string, p: nat): Reason
    requires p < |s|
  {
    if Hint(s, p) then HintComment
    else if StartsOther(s, p) then
      match FirstReason(u, s, p)
      case Some(why) => why
      case None => Unterminated
    else if !Plain(u, s[p]) then if s[p] as int == 0xFEFF then Bom else ControlCharacter
    else AmbiguousPunctuation
  }

  ghost predicate NoToken(u: Unicode, s: string, p: nat) {
    forall kind, e :: !TokenOf(u, s, Span(kind, p, e))
  }

  lemma {:induction false} LineStops(u: Unicode, s: string, p: nat)
    requires p <= |s| && LineEnd(u, s, p).Bad?
    ensures FirstReason(u, s, p) == Some(LineEnd(u, s, p).reason)
    decreases |s| - p
  {
    CharactersAgree(u, s[p]);
    if Plain(u, s[p]) {
      LineStops(u, s, p + 1);
    }
  }

  lemma {:induction false} BlockStops(u: Unicode, s: string, p: nat)
    requires p <= |s| && BlockEnd(u, s, p).Bad?
    ensures BlockEnd(u, s, p).reason == match FirstReason(u, s, p) case Some(why) => why case None => Unterminated
    decreases |s| - p
  {
    if p < |s| {
      CharactersAgree(u, s[p]);
      if Plain(u, s[p]) {
        BlockStops(u, s, p + 1);
      }
    }
  }

  lemma {:induction false} QuotedStops(u: Unicode, s: string, p: nat, quote: char, backslash: bool)
    requires p <= |s| && QuoteChar(quote) && QuotedEnd(u, s, p, quote, backslash).Bad?
    ensures QuotedEnd(u, s, p, quote, backslash).reason
         == match FirstReason(u, s, p) case Some(why) => why case None => Unterminated
    decreases |s| - p
  {
    if p < |s| {
      CharactersAgree(u, s[p]);
      if Plain(u, s[p]) {
        if (backslash && s[p] == '\\') || s[p] == quote {
          if p + 1 < |s| {
            CharactersAgree(u, s[p + 1]);
            if Plain(u, s[p + 1]) {
              QuotedStops(u, s, p + 2, quote, backslash);
            }
          }
        } else {
          QuotedStops(u, s, p + 1, quote, backslash);
        }
      }
    }
  }

  lemma NoTokenIff(u: Unicode, s: string, p: nat)
    requires p < |s| && !Whitespace(s[p])
    ensures NoToken(u, s, p) <==> EndAt(u, s, p).Bad?
  {
    if EndAt(u, s, p).At? {
      GrammarIff(u, s, Span(KindAt(s, p), p, EndAt(u, s, p).pos));
    }
    if kind, e :| TokenOf(u, s, Span(kind, p, e)) {
      GrammarIff(u, s, Span(kind, p, e));
    }
  }

  lemma BadAt(u: Unicode, s: string, p: nat)
    requires p < |s| && !Whitespace(s[p]) && EndAt(u, s, p).Bad?
    ensures EndAt(u, s, p).reason == ReasonAt(u, s, p)
  {
    CharactersAgree(u, s[p]);
    var kind := KindAt(s, p);
    if kind == Comment && s[p] == '/' {
      if !Hint(s, p) {
        CharactersAgree(u, s[p + 1]);
        BlockStops(u, s, p + 2);
        assert FirstReason(u, s, p) == FirstReason(u, s, p + 1);
      }
    } else if kind == Comment {
      LineStops(u, s, p);
    } else if kind == StringLiteral || kind == QuotedIdentifier {
      QuotedStops(u, s, p + 1, s[p], kind == StringLiteral);
    }
  }

  /** The scan stops at a place, behind the tokens in front of it, exactly if no token starts there, and for
      the reason that the place gives. */
  lemma StopsIff(u: Unicode, s: string, why: Reason)
    ensures Lex(u, s, 0) == Refused(why) <==> StoppedText(u, s, why)
  {
    if Lex(u, s, 0) == Refused(why) {
      var ts, p := StopPlace(u, s, 0);
      TilesAreMadeOf(u, s, ts, p);
      NoTokenIff(u, s, p);
      CharactersAgree(u, s[p]);
      BadAt(u, s, p);
      assert StopsAt(u, s, ts, p, why);
    }
    if ts: seq<Span>, p: nat :| StopsAt(u, s, ts, p, why) {
      MadeOfTiles(u, s, ts, p);
      LexThrough(u, s, 0, ts, p);
      CharactersAgree(u, s[p]);
      NoTokenIff(u, s, p);
      BadAt(u, s, p);
    }
  }

  ghost predicate StopsAt(u: Unicode, s: string, ts: seq<Span>, p: nat, why: Reason) {
    p < |s| && MadeOf(u, s, ts, p) && !BlankChar(s[p]) && NoToken(u, s, p) && why == ReasonAt(u, s, p)
  }

  lemma {:induction false} StopPlace(u: Unicode, s: string, p: nat) returns (ts: seq<Span>, q: nat)
    requires p <= |s| && Lex(u, s, p).Refused?
    ensures p <= q < |s| && Tiles(u, s, p, ts, q) && !Whitespace(s[q]) && EndAt(u, s, q) == Bad(Lex(u, s, p).reason)
    decreases |s| - p
  {
    if Whitespace(s[p]) {
      ts, q := StopPlace(u, s, p + 1);
      TilesBehindBlank(u, s, p, ts, q);
    } else if EndAt(u, s, p).Bad? {
      ts, q := [], p;
    } else {
      var e := EndAt(u, s, p).pos;
      ts, q := StopPlace(u, s, e);
      TilesCons(u, s, p, Span(KindAt(s, p), p, e), ts, q);
      ts := [Span(KindAt(s, p), p, e)] + ts;
    }
  }

  lemma TilesBehindBlank(u: Unicode, s: string, p: nat, ts: seq<Span>, till: nat)
    requires p < |s| && Whitespace(s[p]) && Tiles(u, s, p + 1, ts, till)
    ensures Tiles(u, s, p, ts, till)
  {
    forall i | 0 <= i <= |ts|
      ensures Blank(s, GapStart(p, ts, i), GapEnd(ts, i, till))
    {
      assert Blank(s, GapStart(p + 1, ts, i), GapEnd(ts, i, till));
    }
  }

  lemma MadeOfOnce(u: Unicode, s: string, a: seq<Span>, b: seq<Span>)
    requires MadeOf(u, s, a, |s|) && MadeOf(u, s, b, |s|)
    ensures a == b && Lex(u, s, 0) == Spans(a)
  {
    MadeOfTiles(u, s, a, |s|);
    LexIsTiling(u, s, 0, a);
    MadeOfTiles(u, s, b, |s|);
    LexIsTiling(u, s, 0, b);
  }

  lemma NotMadeOf(u: Unicode, s: string)
    requires !exists ts: seq<Span> :: MadeOf(u, s, ts, |s|)
    ensures Lex(u, s, 0).Refused?
  {
    if Lex(u, s, 0).Spans? {
      LexTiles(u, s, 0);
      TilesAreMadeOf(u, s, Lex(u, s, 0).spans, |s|);
    }
  }

  ghost predicate JudgedText(u: Unicode, s: string, why: Reason) {
    exists ts: seq<Span> :: MadeOf(u, s, ts, |s|) && JudgedAs(s, ts, why)
  }

  ghost predicate StoppedText(u: Unicode, s: string, why: Reason) {
    exists ts: seq<Span>, p: nat :: StopsAt(u, s, ts, p, why)
  }

  lemma JudgedIff(u: Unicode, s: string, ts: seq<Span>, why: Reason)
    requires MadeOf(u, s, ts, |s|) && BOM !in s
    ensures ScanText(u, s) == Refused(why) <==> JudgedText(u, s, why)
  {
    MadeOfOnce(u, s, ts, ts);
    JudgeIff(u, s, ts, why);
    if JudgedText(u, s, why) {
      var other: seq<Span> :| MadeOf(u, s, other, |s|) && JudgedAs(s, other, why);
      MadeOfOnce(u, s, ts, other);
    }
  }

  /** What a text is refused for, in the order of the checks: a byte order mark anywhere; the place where the
      scan stops; or, of a text made of tokens, what they amount to. */
  lemma RefusedIff(u: Unicode, s: string, why: Reason)
    ensures ScanText(u, s) == Refused(why)
            <==> if exists i :: 0 <= i < |s| && s[i] as int == 0xFEFF then why == Bom
                 else if exists ts: seq<Span> :: MadeOf(u, s, ts, |s|) then JudgedText(u, s, why)
                 else StoppedText(u, s, why)
  {
    if BOM in s {
      var i :| 0 <= i < |s| && s[i] == BOM;
    } else if ts: seq<Span> :| MadeOf(u, s, ts, |s|) {
      JudgedIff(u, s, ts, why);
    } else {
      StopsIff(u, s, why);
      NotMadeOf(u, s);
    }
  }

  predicate JudgedAs(s: string, ts: seq<Span>, why: Reason) {
    if BehindSemicolon(s, ts) then why == MultiStatement
    else if Exports(s, ts) then why == IntoOutfile
    else !HasContent(s, ts) && why == Empty
  }

  lemma JudgeIff(u: Unicode, s: string, ts: seq<Span>, why: Reason)
    requires MadeOf(u, s, ts, |s|)
    ensures Judge(s, Significant(ts)) == Some(why) <==> JudgedAs(s, ts, why)
  {
    MadeOfOrdered(u, s, ts, |s|);
    SemicolonsIff(s, ts);
    ExportsIff(s, ts);
    if !SeveralStatements(s, Significant(ts)) {
      ContentIff(s, ts);
    }
  }

  // ---- hints ----

  /** No token starts as a hint. */
  lemma NoHintStartsToken(u: Unicode, s: string, t: Span)
    requires TokenOf(u, s, t)
    ensures !Hint(s, t.start)
  {
    GrammarIff(u, s, t);
  }

  /** A text with a hint behind its first tokens is refused for it. */
  lemma HintRefused(u: Unicode, s: string, ts: seq<Span>, p: nat)
    requires p <= |s| && MadeOf(u, s, ts, p) && Hint(s, p) && forall i :: 0 <= i < |s| ==> s[i] as int != 0xFEFF
    ensures ScanText(u, s) == Refused(HintComment)
  {
    MadeOfTiles(u, s, ts, p);
    LexThrough(u, s, 0, ts, p);
    assert EndAt(u, s, p) == Bad(HintComment);
    assert BOM !in s;
  }
}
