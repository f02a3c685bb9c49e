/**
 Which characters an accepted text holds and where, the grammar of quoted tokens, and why
 nothing written inside quotes changes what the scan says about the rest.
 */
module SqlTokensContent {
  import opened Wrappers
  import opened SqlTokens
  import opened SqlTokensTheorems

  // ---- where characters stand ----

  lemma {:induction false} Covered(u: Unicode, s: string, p: nat, ts: seq<Span>, till: nat, q: nat) returns (i: nat)
    requires Tiles(u, s, p, ts, till) && p <= q < till <= |s| && !Whitespace(s[q])
    ensures i < |ts| && ts[i].start <= q < ts[i].end
    decreases |ts|
  {
    assert Blank(s, GapStart(p, ts, 0), GapEnd(ts, 0, till));
    i := 0;
    if q >= ts[0].end {
      TilesTail(u, s, p, ts, till);
      i := Covered(u, s, ts[0].end, ts[1..], till, q);
      i := i + 1;
    }
  }

  lemma {:induction false} WordChars(s: string, p: nat, q: nat)
    requires p <= |s| && p <= q < WordEnd(s, p)
    ensures WordChar(s[q])
    decreases q - p
  {
    if p < q {
      WordChars(s, p + 1, q);
    }
  }

  lemma {:induction false} LineChars(u: Unicode, s: string, p: nat, q: nat)
    requires p <= q < |s| && LineEnd(u, s, p).At? && q < LineEnd(u, s, p).pos
    ensures Permitted(u, s[q]) && !LineBreak(s[q])
    decreases q - p
  {
    if p < q {
      LineChars(u, s, p + 1, q);
    }
  }

  lemma {:induction false} BlockChars(u: Unicode, s: string, p: nat, q: nat)
    requires p <= q < |s| && BlockEnd(u, s, p).At? && q < BlockEnd(u, s, p).pos
    ensures Permitted(u, s[q])
    decreases q - p
  {
    if p < q && !(s[p] == '*' && Is(s, p + 1, '/')) {
      BlockChars(u, s, p + 1, q);
    }
  }

  lemma {:induction false} QuotedChars(u: Unicode, s: string, p: nat, quote: char, backslash: bool, q: nat)
    requires Ascii(quote) && !Control(quote)
    requires p <= q < |s| && QuotedEnd(u, s, p, quote, backslash).At?
    requires q < QuotedEnd(u, s, p, quote, backslash).pos
    ensures Permitted(u, s[q])
    decreases q - p
  {
    if q >= p + 2 && ((backslash && s[p] == '\\') || (s[p] == quote && Is(s, p + 1, quote))) {
      QuotedChars(u, s, p + 2, quote, backslash, q);
    } else if q > p && !(backslash && s[p] == '\\') && s[p] != quote {
      QuotedChars(u, s, p + 1, quote, backslash, q);
    }
  }

  lemma TokenChars(u: Unicode, s: string, t: Span, q: nat)
    requires Token(u, s, t) && t.start <= q < t.end
    ensures Permitted(u, s[q])
    ensures t.kind == Word || t.kind == Symbol ==> Ascii(s[q])
  {
    var p := t.start;
    if t.kind == Word && q > p {
      WordChars(s, p + 1, q);
    } else if t.kind == Comment && s[p] == '/' && q > p + 1 {
      BlockChars(u, s, p + 2, q);
    } else if t.kind == Comment && s[p] != '/' {
      LineChars(u, s, p, q);
    } else if (t.kind == StringLiteral || t.kind == QuotedIdentifier) && q > p {
      QuotedChars(u, s, p + 1, s[p], t.kind == StringLiteral, q);
    }
  }

  /** Every character of an accepted text is permitted, stands inside a token unless it is
      white space, and is ASCII unless that token is a string, a quoted identifier or a
      comment. */
  lemma AcceptedCharacter(u: Unicode, s: string, q: nat)
    requires ScanText(u, s).Spans? && q < |s|
    ensures Permitted(u, s[q])
    ensures Whitespace(s[q])
            || exists t :: t in ScanText(u, s).spans && t.start <= q < t.end
                           && (t.kind == Word || t.kind == Symbol ==> Ascii(s[q]))
  {
    var ts := ScanText(u, s).spans;
    LexIsTiling(u, s, 0, ts);
    if !Whitespace(s[q]) {
      var i := Covered(u, s, 0, ts, |s|, q);
      TokenChars(u, s, ts[i], q);
      assert ts[i] in ts;
    }
  }

  /** What stands in front of the statement and behind it is white space, comments, and
      nothing else but one trailing `;`. */
  lemma CutOff(u: Unicode, s: string, stmt: seq<Span>, q: nat)
    requires ScanText(u, s).Spans? && stmt == StatementOf(u, s) && q < |s|
    requires q < stmt[0].start || stmt[|stmt| - 1].end <= q
    ensures Whitespace(s[q])
            || exists t :: t in ScanText(u, s).spans && t.start <= q < t.end
                           && (t.kind == Comment
                               || (IsSemicolon(s, t) && Significant(ScanText(u, s).spans) == stmt + [t]))
  {
    var ts := ScanText(u, s).spans;
    LexIsTiling(u, s, 0, ts);
    if !Whitespace(s[q]) {
      var i := Covered(u, s, 0, ts, |s|, q);
      assert ts[i] in ts;
      if ts[i].kind != Comment {
        OutsideStatement(u, s, ts, stmt, i);
      }
    }
  }

  lemma OutsideStatement(u: Unicode, s: string, ts: seq<Span>, stmt: seq<Span>, i: nat)
    requires Tiles(u, s, 0, ts, |s|) && stmt == Statement(s, Significant(ts)) != []
    requires i < |ts| && ts[i].kind != Comment
    requires ts[i].start < stmt[0].start || stmt[|stmt| - 1].end < ts[i].end
    ensures Significant(ts) == stmt + [ts[i]] && IsSemicolon(s, ts[i])
  {
    var n := SignificantIndex(ts, i);
    if n < |stmt| {
      InsideStatement(u, s, ts, stmt, n);
      assert false;
    }
    TrailingOnly(s, Significant(ts), n);
  }

  lemma TrailingOnly(s: string, sig: seq<Span>, n: nat)
    requires |Statement(s, sig)| <= n < |sig|
    ensures IsSemicolon(s, sig[n]) && sig == Statement(s, sig) + [sig[n]]
  {
  }

  lemma InsideStatement(u: Unicode, s: string, ts: seq<Span>, stmt: seq<Span>, n: nat)
    requires Tiles(u, s, 0, ts, |s|) && stmt <= Significant(ts) && n < |stmt|
    ensures stmt[0].start <= stmt[n].start && stmt[n].end <= stmt[|stmt| - 1].end
  {
    var moved := SliceTiles(u, s, ts, stmt, 0, stmt[0].start, stmt[|stmt| - 1].end);
  }

  /** The number of a significant token among the significant ones. */
  lemma SignificantIndex(ts: seq<Span>, i: nat) returns (n: nat)
    requires i < |ts| && ts[i].kind != Comment
    ensures n == |Significant(ts[..i])| < |Significant(ts)| && Significant(ts)[n] == ts[i]
  {
    SignificantAppend(ts[..i], ts[i..]);
    assert ts[..i] + ts[i..] == ts;
    n := |Significant(ts[..i])|;
  }

  // ---- the grammar of quoted tokens ----

  predicate QuoteChar(c: char) { c == '\'' || c == '"' || c == '`' }

  /** A body between two quotes: doubled quotes, backslash pairs where they escape, and any
      other permitted characters. */
  predicate Body(u: Unicode, quote: char, backslash: bool, body: string) {
    if body == [] then true
    else if backslash && body[0] == '\\' then
      |body| >= 2 && Permitted(u, body[1]) && Body(u, quote, backslash, body[2..])
    else if body[0] == quote then
      |body| >= 2 && body[1] == quote && Body(u, quote, backslash, body[2..])
    else Permitted(u, body[0]) && Body(u, quote, backslash, body[1..])
  }

  /** A quoted token ends exactly behind a well-formed body and a quote that is not doubled. */
  lemma {:induction false} QuotedGrammar(u: Unicode, s: string, p: nat, quote: char, backslash: bool, e: nat)
    requires p <= |s| && QuoteChar(quote)
    ensures QuotedEnd(u, s, p, quote, backslash) == At(e)
            <==> p < e <= |s| && s[e - 1] == quote && !Is(s, e, quote) && Body(u, quote, backslash, s[p..e - 1])
    decreases |s| - p
  {
    if p < |s| {
      if backslash && s[p] == '\\' {
        if p + 1 < |s| {
          QuotedGrammar(u, s, p + 2, quote, backslash, e);
        }
        if p + 2 < e <= |s| {
          assert s[p..e - 1][2..] == s[p + 2..e - 1];
        }
      } else if s[p] == quote {
        if Is(s, p + 1, quote) {
          QuotedGrammar(u, s, p + 2, quote, backslash, e);
          if p + 2 < e <= |s| {
            assert s[p..e - 1][2..] == s[p + 2..e - 1];
          }
        }
      } else {
        QuotedGrammar(u, s, p + 1, quote, backslash, e);
        if p + 1 < e <= |s| {
          assert s[p..e - 1][1..] == s[p + 1..e - 1];
        }
      }
    }
  }

  // ---- scanning depends only on what lies ahead ----

  function MovedEnd(e: End, d: int): End
    requires e.At? ==> e.pos + d >= 0
  {
    if e.At? then At(e.pos + d) else e
  }

  /** From `p` on `s` reads like `r` from `p + d` on. */
  predicate SameAhead(s: string, p: nat, r: string, d: int) {
    p <= |s| && 0 <= p + d && |r| == |s| + d && forall i :: p <= i < |s| ==> r[i + d] == s[i]
  }

  lemma {:induction false} WordMoved(s: string, p: nat, r: string, d: int)
    requires SameAhead(s, p, r, d)
    ensures WordEnd(r, p + d) == WordEnd(s, p) + d
    decreases |s| - p
  {
    if p < |s| && WordChar(s[p]) {
      WordMoved(s, p + 1, r, d);
    }
  }

  lemma {:induction false} LineMoved(u: Unicode, s: string, p: nat, r: string, d: int)
    requires SameAhead(s, p, r, d)
    ensures LineEnd(u, r, p + d) == MovedEnd(LineEnd(u, s, p), d)
    decreases |s| - p
  {
    if p < |s| {
      LineMoved(u, s, p + 1, r, d);
    }
  }

  lemma {:induction false} BlockMoved(u: Unicode, s: string, p: nat, r: string, d: int)
    requires SameAhead(s, p, r, d)
    ensures BlockEnd(u, r, p + d) == MovedEnd(BlockEnd(u, s, p), d)
    decreases |s| - p
  {
    if p < |s| {
      assert Is(r, p + d + 1, '/') == Is(s, p + 1, '/');
      BlockMoved(u, s, p + 1, r, d);
    }
  }

  lemma {:induction false} QuotedMoved(u: Unicode, s: string, p: nat, quote: char, backslash: bool, r: string, d: int)
    requires SameAhead(s, p, r, d)
    ensures QuotedEnd(u, r, p + d, quote, backslash) == MovedEnd(QuotedEnd(u, s, p, quote, backslash), d)
    decreases |s| - p
  {
    if p < |s| {
      assert Is(r, p + d + 1, quote) == Is(s, p + 1, quote);
      QuotedMoved(u, s, p + 1, quote, backslash, r, d);
      if p + 1 < |s| {
        QuotedMoved(u, s, p + 2, quote, backslash, r, d);
      }
    }
  }

  lemma EndMoved(u: Unicode, s: string, p: nat, r: string, d: int)
    requires SameAhead(s, p, r, d) && p < |s| && !Whitespace(s[p])
    ensures KindAt(r, p + d) == KindAt(s, p)
    ensures EndAt(u, r, p + d) == MovedEnd(EndAt(u, s, p), d)
  {
    WordMoved(s, p + 1, r, d);
    LineMoved(u, s, p, r, d);
    if p + 1 < |s| {
      BlockMoved(u, s, p + 2, r, d);
    }
    QuotedMoved(u, s, p + 1, s[p], KindAt(s, p) == StringLiteral, r, d);
  }

  /** Two texts' tokens agree in kind, and in spelling where the spelling can matter. */
  predicate Alike(s: string, a: Span, r: string, b: Span) {
    && a.start < a.end <= |s| && b.start < b.end <= |r|
    && a.kind == b.kind
    && (a.kind == Word || a.kind == Symbol ==> s[a.start..a.end] == r[b.start..b.end])
  }

  predicate AllAlike(s: string, ts: seq<Span>, r: string, rs: seq<Span>) {
    |ts| == |rs| && forall i :: 0 <= i < |ts| ==> Alike(s, ts[i], r, rs[i])
  }

  predicate LexedAlike(s: string, a: Lexed, r: string, b: Lexed) {
    match (a, b)
    case (Refused(x), Refused(y)) => x == y
    case (Spans(ts), Spans(rs)) => AllAlike(s, ts, r, rs)
    case _ => false
  }

  lemma {:induction false} LexMoved(u: Unicode, s: string, p: nat, r: string, d: int)
    requires SameAhead(s, p, r, d)
    ensures LexedAlike(s, Lex(u, s, p), r, Lex(u, r, p + d))
    decreases |s| - p
  {
    if p == |s| {
    } else if Whitespace(s[p]) {
      LexMoved(u, s, p + 1, r, d);
    } else {
      EndMoved(u, s, p, r, d);
      if EndAt(u, s, p).At? {
        var e := EndAt(u, s, p).pos;
        LexMoved(u, s, e, r, d);
        assert s[p..e] == r[p + d..e + d];
      }
    }
  }

  lemma {:induction false} SignificantAlike(s: string, ts: seq<Span>, r: string, rs: seq<Span>)
    requires AllAlike(s, ts, r, rs)
    ensures AllAlike(s, Significant(ts), r, Significant(rs))
  {
    if ts != [] {
      assert Alike(s, ts[0], r, rs[0]);
      SignificantAlike(s, ts[1..], r, rs[1..]);
    }
  }

  lemma JudgedAlike(s: string, ts: seq<Span>, r: string, rs: seq<Span>)
    requires AllAlike(s, ts, r, rs)
    ensures Judge(s, ts) == Judge(r, rs)
  {
    forall i | 0 <= i < |ts|
      ensures IsSemicolon(s, ts[i]) == IsSemicolon(r, rs[i])
      ensures forall w :: WordIs(s, ts[i], w) == WordIs(r, rs[i], w)
    {
      assert Alike(s, ts[i], r, rs[i]);
      assert ts[i].kind == Symbol ==> s[ts[i].start..ts[i].end][0] == r[rs[i].start..rs[i].end][0];
    }
    forall i | 0 <= i < |ts| - 1
      ensures IntoFile(s, ts[i], ts[i + 1]) == IntoFile(r, rs[i], rs[i + 1])
    {
    }
    assert SeveralStatements(s, ts) == SeveralStatements(r, rs);
    assert ExportsToFile(s, ts) == ExportsToFile(r, rs);
  }

  // ---- non-interference ----

  function Kinds(ts: seq<Span>): seq<TokenKind> {
    seq(|ts|, i requires 0 <= i < |ts| => ts[i].kind)
  }

  /** What the scan decides: the kinds of the tokens, or the reason of the refusal. */
  function Verdict(l: Lexed): Result<seq<TokenKind>, Reason> {
    match l
    case Refused(why) => Err(why)
    case Spans(ts) => Ok(Kinds(ts))
  }

  /** `s` with `body` between the quotes of `t` in place of what stood there. */
  function Rewritten(s: string, t: Span, body: string): string
    requires t.start + 1 < t.end <= |s|
  {
    s[..t.start + 1] + body + s[t.end - 1..]
  }

  predicate Quoted(t: Span) { t.kind == StringLiteral || t.kind == QuotedIdentifier }

  lemma RewrittenToken(u: Unicode, s: string, t: Span, body: string, t': Span)
    requires Token(u, s, t) && Quoted(t) && Body(u, s[t.start], t.kind == StringLiteral, body)
    requires t' == Span(t.kind, t.start, t.start + |body| + 2)
    ensures t.start + 1 < t.end
    ensures Token(u, Rewritten(s, t, body), t')
  {
    var q, b := s[t.start], t.kind == StringLiteral;
    QuotedGrammar(u, s, t.start + 1, q, b, t.end);
    var r := Rewritten(s, t, body);
    assert r[t.start + 1..t'.end - 1] == body;
    QuotedGrammar(u, r, t.start + 1, q, b, t'.end);
  }

  lemma {:induction false} FrontKept(u: Unicode, s: string, front: seq<Span>, till: nat, r: string)
    requires Tiles(u, s, 0, front, till) && till < |s| && till < |r|
    requires s[..till + 1] == r[..till + 1]
    ensures Tiles(u, r, 0, front, till)
  {
    forall i | 0 <= i < |front|
      ensures Token(u, r, front[i])
    {
      TilesOrdered(u, s, 0, front, till, i, |front|);
      FrontAgrees(s, front[i], till, r);
      TokenAgrees(u, s, front[i], r, 0);
      assert Shift(front[i], 0) == front[i];
    }
    forall i | 0 <= i <= |front|
      ensures Blank(r, GapStart(0, front, i), GapEnd(front, i, till))
    {
      assert Blank(s, GapStart(0, front, i), GapEnd(front, i, till));
      if i < |front| {
        TilesOrdered(u, s, 0, front, till, i, |front|);
      }
      FrontBlank(s, GapStart(0, front, i), GapEnd(front, i, till), till, r);
    }
  }

  lemma FrontAgrees(s: string, t: Span, till: nat, r: string)
    requires t.start < t.end <= till < |s| && till < |r| && s[..till + 1] == r[..till + 1]
    ensures Agree(s, t.start, t.end, r, 0)
  {
  }

  lemma FrontBlank(s: string, a: nat, b: nat, till: nat, r: string)
    requires Blank(s, a, b) && b <= till < |s| && till < |r| && s[..till + 1] == r[..till + 1]
    ensures Blank(r, a, b)
  {
  }

  lemma BomElsewhere(u: Unicode, s: string, t: Span, body: string)
    requires Token(u, s, t) && Quoted(t) && t.start + 1 < t.end && forall c :: c in body ==> c != BOM
    ensures BOM in s <==> BOM in Rewritten(s, t, body)
  {
    var r := Rewritten(s, t, body);
    if BOM in s {
      var i :| 0 <= i < |s| && s[i] == BOM;
      if t.start <= i < t.end {
        TokenChars(u, s, t, i);
        assert false;
      }
      if i < t.start {
        assert r[i] == BOM;
      } else {
        assert r[i - t.end + t.start + 2 + |body|] == BOM;
      }
    }
  }

  lemma {:induction false} BodyPermitted(u: Unicode, quote: char, backslash: bool, body: string)
    requires QuoteChar(quote) && Body(u, quote, backslash, body)
    ensures forall c :: c in body ==> c != BOM
  {
    if body != [] {
      if (backslash && body[0] == '\\') || body[0] == quote {
        BodyPermitted(u, quote, backslash, body[2..]);
        assert body == [body[0], body[1]] + body[2..];
      } else {
        BodyPermitted(u, quote, backslash, body[1..]);
        assert body == [body[0]] + body[1..];
      }
    }
  }

  lemma FrontAlike(s: string, front: seq<Span>, t: Span, r: string, t': Span, a: Lexed, b: Lexed)
    requires t.start < |s| && t.start < |r| && s[..t.start + 1] == r[..t.start + 1]
    requires forall i :: 0 <= i < |front| ==> front[i].start < front[i].end <= t.start
    requires Alike(s, t, r, t') && LexedAlike(s, a, r, b)
    ensures LexedAlike(s, Prepend(front, Prepend([t], a)), r, Prepend(front, Prepend([t'], b)))
  {
    forall i | 0 <= i < |front|
      ensures Alike(s, front[i], r, front[i])
    {
      assert s[front[i].start..front[i].end] == s[..t.start + 1][front[i].start..front[i].end];
      assert r[front[i].start..front[i].end] == r[..t.start + 1][front[i].start..front[i].end];
    }
  }

  lemma VerdictAlike(u: Unicode, s: string, r: string)
    requires LexedAlike(s, Lex(u, s, 0), r, Lex(u, r, 0)) && (BOM in s <==> BOM in r)
    ensures Verdict(ScanText(u, s)) == Verdict(ScanText(u, r))
  {
    if Lex(u, s, 0).Spans? {
      var ts, rs := Lex(u, s, 0).spans, Lex(u, r, 0).spans;
      SignificantAlike(s, ts, r, rs);
      JudgedAlike(s, Significant(ts), r, Significant(rs));
      assert forall i :: 0 <= i < |ts| ==> Alike(s, ts[i], r, rs[i]);
      assert Kinds(ts) == Kinds(rs);
    }
  }

  /** Once the scan stands at a string or a quoted identifier, replacing its content by any
      other well-formed content changes neither the verdict nor the reason of a refusal nor
      the kind of any token. */
  lemma ContentDoesNotInterfere(u: Unicode, s: string, front: seq<Span>, t: Span, body: string)
    requires Tiles(u, s, 0, front, t.start) && Token(u, s, t) && Quoted(t)
    requires Body(u, s[t.start], t.kind == StringLiteral, body)
    ensures t.start + 1 < t.end
    ensures Verdict(ScanText(u, Rewritten(s, t, body))) == Verdict(ScanText(u, s))
  {
    var t' := Span(t.kind, t.start, t.start + |body| + 2);
    RewrittenToken(u, s, t, body, t');
    var r := Rewritten(s, t, body);
    BodyPermitted(u, s[t.start], t.kind == StringLiteral, body);
    BomElsewhere(u, s, t, body);
    RewrittenLexed(u, s, front, t, r, t');
    VerdictAlike(u, s, r);
  }

  lemma RewrittenLexed(u: Unicode, s: string, front: seq<Span>, t: Span, r: string, t': Span)
    requires Tiles(u, s, 0, front, t.start) && Token(u, s, t) && Quoted(t)
    requires Token(u, r, t') && t'.kind == t.kind && t'.start == t.start
    requires s[..t.start + 1] == r[..t.start + 1] && SameAhead(s, t.end, r, t'.end - t.end)
    ensures LexedAlike(s, Lex(u, s, 0), r, Lex(u, r, 0))
  {
    FrontKept(u, s, front, t.start, r);
    LexThrough(u, s, 0, front, t.start);
    LexThrough(u, r, 0, front, t.start);
    LexMoved(u, s, t.end, r, t'.end - t.end);
    forall i | 0 <= i < |front|
      ensures front[i].start < front[i].end <= t.start
    {
      assert Token(u, s, front[i]);
      TilesOrdered(u, s, 0, front, t.start, i, |front|);
    }
    FrontAlike(s, front, t, r, t', Lex(u, s, t.end), Lex(u, r, t'.end));
  }
}
