/**
 What the scan guarantees for every text: the tokens tile it, the verdict survives cutting
 the statement out, and the content of a quoted token decides nothing.
 */
module SqlTokensTheorems {
  import opened Wrappers
  import opened SqlTokens

  // ---- a declarative reading of the scan ----

  /** `t` is a token of `s`, judged on its own characters and the one behind it. */
  predicate Token(u: Unicode, s: string, t: Span) {
    && t.start < t.end <= |s|
    && !Whitespace(s[t.start])
    && t.kind == KindAt(s, t.start)
    && EndAt(u, s, t.start) == At(t.end)
  }

  predicate Blank(s: string, a: nat, b: nat) {
    a <= b <= |s| && forall i :: a <= i < b ==> Whitespace(s[i])
  }

  function GapStart(p: nat, ts: seq<Span>, i: nat): nat
    requires i <= |ts|
  {
    if i == 0 then p else ts[i - 1].end
  }

  function GapEnd(ts: seq<Span>, i: nat, till: nat): nat
    requires i <= |ts|
  {
    if i == |ts| then till else ts[i].start
  }

  /** `ts` are tokens of `s` that cover positions `p` to `till` up to white space between them. */
  predicate Tiles(u: Unicode, s: string, p: nat, ts: seq<Span>, till: nat) {
    && (forall i :: 0 <= i < |ts| ==> Token(u, s, ts[i]))
    && (forall i :: 0 <= i <= |ts| ==> Blank(s, GapStart(p, ts, i), GapEnd(ts, i, till)))
  }

  lemma {:induction false} LexBlank(u: Unicode, s: string, p: nat, till: nat)
    requires Blank(s, p, till)
    ensures Lex(u, s, p) == Lex(u, s, till)
    decreases till - p
  {
    if p < till {
      LexBlank(u, s, p + 1, till);
    }
  }

  /** Having tiled a front of the text, the scan goes on from where the tiling ends. */
  lemma {:induction false} LexThrough(u: Unicode, s: string, p: nat, ts: seq<Span>, till: nat)
    requires Tiles(u, s, p, ts, till)
    ensures p <= till <= |s|
    ensures Lex(u, s, p) == Prepend(ts, Lex(u, s, till))
    decreases |ts|
  {
    assert Blank(s, GapStart(p, ts, 0), GapEnd(ts, 0, till));
    if ts == [] {
      LexBlank(u, s, p, till);
    } else {
      var t, rest := ts[0], ts[1..];
      LexBlank(u, s, p, t.start);
      TilesTail(u, s, p, ts, till);
      LexThrough(u, s, t.end, rest, till);
      PrependCons(t, rest, ts, Lex(u, s, till));
    }
  }

  lemma PrependCons(t: Span, rest: seq<Span>, ts: seq<Span>, l: Lexed)
    requires ts == [t] + rest
    ensures Prepend([t], Prepend(rest, l)) == Prepend(ts, l)
  {
  }

  lemma TilesTail(u: Unicode, s: string, p: nat, ts: seq<Span>, till: nat)
    requires ts != []
    requires Tiles(u, s, p, ts, till)
    ensures Tiles(u, s, ts[0].end, ts[1..], till)
  {
    var rest := ts[1..];
    forall i | 0 <= i <= |rest|
      ensures Blank(s, GapStart(ts[0].end, rest, i), GapEnd(rest, i, till))
    {
      assert Blank(s, GapStart(p, ts, i + 1), GapEnd(ts, i + 1, till));
    }
  }

  lemma GapCons(p: nat, t: Span, rest: seq<Span>, till: nat, i: nat)
    requires i <= |rest| + 1
    ensures i == 0 ==> GapStart(p, [t] + rest, i) == p && GapEnd([t] + rest, i, till) == t.start
    ensures i > 0 ==> GapStart(p, [t] + rest, i) == GapStart(t.end, rest, i - 1)
    ensures i > 0 ==> GapEnd([t] + rest, i, till) == GapEnd(rest, i - 1, till)
  {
    var ts := [t] + rest;
    assert i < |ts| ==> ts[i] == if i == 0 then t else rest[i - 1];
  }

  lemma TilesCons(u: Unicode, s: string, p: nat, t: Span, rest: seq<Span>, till: nat)
    requires Token(u, s, t) && Blank(s, p, t.start)
    requires Tiles(u, s, t.end, rest, till)
    ensures Tiles(u, s, p, [t] + rest, till)
  {
    var ts := [t] + rest;
    forall i | 0 <= i <= |ts|
      ensures Blank(s, GapStart(p, ts, i), GapEnd(ts, i, till))
    {
      GapCons(p, t, rest, till, i);
      if i > 0 {
        assert Blank(s, GapStart(t.end, rest, i - 1), GapEnd(rest, i - 1, till));
      }
    }
  }

  /** The scan accepts exactly the tilings of the text, and a text has at most one. */
  lemma {:induction false} LexIsTiling(u: Unicode, s: string, p: nat, ts: seq<Span>)
    requires p <= |s|
    ensures Lex(u, s, p) == Spans(ts) <==> Tiles(u, s, p, ts, |s|)
  {
    if Tiles(u, s, p, ts, |s|) {
      LexThrough(u, s, p, ts, |s|);
    }
    if Lex(u, s, p) == Spans(ts) {
      LexTiles(u, s, p);
    }
  }

  lemma {:induction false} LexTiles(u: Unicode, s: string, p: nat)
    requires p <= |s| && Lex(u, s, p).Spans?
    ensures Tiles(u, s, p, Lex(u, s, p).spans, |s|)
    decreases |s| - p
  {
    if p == |s| {
    } else if Whitespace(s[p]) {
      LexTiles(u, s, p + 1);
      var ts := Lex(u, s, p).spans;
      assert Blank(s, GapStart(p + 1, ts, 0), GapEnd(ts, 0, |s|));
      forall i | 0 <= i <= |ts|
        ensures Blank(s, GapStart(p, ts, i), GapEnd(ts, i, |s|))
      {
        assert Blank(s, GapStart(p + 1, ts, i), GapEnd(ts, i, |s|));
      }
    } else {
      var e := EndAt(u, s, p).pos;
      LexTiles(u, s, e);
      TilesCons(u, s, p, Span(KindAt(s, p), p, e), Lex(u, s, e).spans, |s|);
    }
  }

  // ---- a token depends only on its own characters and the one behind it ----

  /** `r`, read from `p + d` on, shows the characters of `s` from `p` to `e` and then either
      ends or shows the same next character. */
  predicate Agree(s: string, p: nat, e: nat, r: string, d: int) {
    && p <= e <= |s| && 0 <= p + d && e + d <= |r|
    && (forall i :: p <= i < e ==> r[i + d] == s[i])
    && (e + d < |r| ==> e < |s| && r[e + d] == s[e])
  }

  lemma {:induction false} WordAgrees(s: string, p: nat, r: string, d: int)
    requires p <= |s| && Agree(s, p, WordEnd(s, p), r, d)
    ensures WordEnd(r, p + d) == WordEnd(s, p) + d
    decreases |s| - p
  {
    if p < |s| && WordChar(s[p]) {
      WordAgrees(s, p + 1, r, d);
    }
  }

  lemma {:induction false} LineAgrees(u: Unicode, s: string, p: nat, r: string, d: int)
    requires p <= |s| && LineEnd(u, s, p).At? && Agree(s, p, LineEnd(u, s, p).pos, r, d)
    ensures LineEnd(u, r, p + d) == At(LineEnd(u, s, p).pos + d)
    decreases |s| - p
  {
    if p < |s| && !LineBreak(s[p]) {
      LineAgrees(u, s, p + 1, r, d);
    }
  }

  lemma {:induction false} BlockAgrees(u: Unicode, s: string, p: nat, r: string, d: int)
    requires p <= |s| && BlockEnd(u, s, p).At? && Agree(s, p, BlockEnd(u, s, p).pos, r, d)
    ensures BlockEnd(u, r, p + d) == At(BlockEnd(u, s, p).pos + d)
    decreases |s| - p
  {
    if s[p] == '*' && Is(s, p + 1, '/') {
      assert r[p + 1 + d] == s[p + 1];
    } else {
      var e := BlockEnd(u, s, p).pos;
      BlockAgrees(u, s, p + 1, r, d);
      assert p + 1 < e ==> r[p + 1 + d] == s[p + 1];
    }
  }

  lemma {:induction false} QuotedAgrees(u: Unicode, s: string, p: nat, q: char, b: bool, r: string, d: int)
    requires p <= |s| && QuotedEnd(u, s, p, q, b).At? && Agree(s, p, QuotedEnd(u, s, p, q, b).pos, r, d)
    ensures QuotedEnd(u, r, p + d, q, b) == At(QuotedEnd(u, s, p, q, b).pos + d)
    decreases |s| - p
  {
    var e := QuotedEnd(u, s, p, q, b).pos;
    assert r[p + d] == s[p];
    if b && s[p] == '\\' {
      assert r[p + 1 + d] == s[p + 1];
      QuotedAgrees(u, s, p + 2, q, b, r, d);
    } else if s[p] == q {
      if Is(s, p + 1, q) {
        assert r[p + 1 + d] == s[p + 1];
        QuotedAgrees(u, s, p + 2, q, b, r, d);
      }
    } else {
      QuotedAgrees(u, s, p + 1, q, b, r, d);
    }
  }

  function Shift(t: Span, d: int): Span
    requires 0 <= t.start + d && 0 <= t.end + d
  {
    Span(t.kind, t.start + d, t.end + d)
  }

  lemma TokenAgrees(u: Unicode, s: string, t: Span, r: string, d: int)
    requires Token(u, s, t) && Agree(s, t.start, t.end, r, d)
    ensures Token(u, r, Shift(t, d))
  {
    assert r[t.start + d] == s[t.start];
    KindAgrees(u, s, t, r, d);
    EndAgrees(u, s, t, r, d);
  }

  lemma KindAgrees(u: Unicode, s: string, t: Span, r: string, d: int)
    requires Token(u, s, t) && Agree(s, t.start, t.end, r, d)
    ensures KindAt(r, t.start + d) == t.kind
  {
    var p := t.start;
    assert r[p + d] == s[p];
    if t.end > p + 1 {
      assert r[p + 1 + d] == s[p + 1];
    }
  }

  lemma EndAgrees(u: Unicode, s: string, t: Span, r: string, d: int)
    requires Token(u, s, t) && Agree(s, t.start, t.end, r, d)
    requires KindAt(r, t.start + d) == t.kind && r[t.start + d] == s[t.start]
    ensures EndAt(u, r, t.start + d) == At(t.end + d)
  {
    var p := t.start;
    if t.kind == Comment && s[p] == '/' {
      BlockAgrees(u, s, p + 2, r, d);
      assert r[p + 2 + d] == s[p + 2];
    } else if t.kind == Comment {
      LineAgrees(u, s, p, r, d);
    } else if t.kind == StringLiteral || t.kind == QuotedIdentifier {
      QuotedAgrees(u, s, p + 1, s[p], t.kind == StringLiteral, r, d);
    } else if t.kind == Word {
      WordAgrees(s, p + 1, r, d);
    }
  }

  // ---- cutting a statement out of its text ----

  function ShiftAll(ts: seq<Span>, d: int): (r: seq<Span>)
    requires forall i :: 0 <= i < |ts| ==> 0 <= ts[i].start + d && 0 <= ts[i].end + d
    ensures |r| == |ts| && forall i :: 0 <= i < |r| ==> r[i] == Shift(ts[i], d)
  {
    if ts == [] then [] else [Shift(ts[0], d)] + ShiftAll(ts[1..], d)
  }

  lemma {:induction false} TilesOrdered(u: Unicode, s: string, p: nat, ts: seq<Span>, till: nat, i: nat, j: nat)
    requires Tiles(u, s, p, ts, till) && i < j <= |ts|
    ensures ts[i].end <= GapEnd(ts, j, till)
    decreases j - i
  {
    assert Blank(s, GapStart(p, ts, j), GapEnd(ts, j, till));
    if i + 1 < j {
      TilesOrdered(u, s, p, ts, till, i, j - 1);
    }
  }

  /** Tokens `i` to `j - 1` lie between the start of the first and the end of the last. */
  predicate CutBetween(ts: seq<Span>, i: nat, j: nat, a: nat, b: nat) {
    i <= j <= |ts| && forall k :: i <= k < j ==> a <= ts[k].start < ts[k].end <= b
  }

  lemma CutBounds(u: Unicode, s: string, ts: seq<Span>, i: nat, j: nat)
    requires Tiles(u, s, 0, ts, |s|) && i < j <= |ts|
    ensures ts[i].start < ts[j - 1].end <= |s|
    ensures CutBetween(ts, i, j, ts[i].start, ts[j - 1].end)
  {
    forall k | i <= k < j
      ensures ts[i].start <= ts[k].start < ts[k].end <= ts[j - 1].end
    {
      assert Token(u, s, ts[k]) && Token(u, s, ts[i]) && Token(u, s, ts[j - 1]);
      if i < k {
        TilesOrdered(u, s, 0, ts, |s|, i, k);
      }
      if k < j - 1 {
        TilesOrdered(u, s, 0, ts, |s|, k, j - 1);
      }
    }
    assert Token(u, s, ts[i]) && Token(u, s, ts[j - 1]);
    assert ts[i].start <= ts[i].start < ts[i].end <= ts[j - 1].end;
  }

  /** Consecutive tokens, cut out of the text, are scanned as the same tokens. */
  lemma CutTiles(u: Unicode, s: string, ts: seq<Span>, i: nat, j: nat, a: nat, b: nat)
    requires Tiles(u, s, 0, ts, |s|) && i < j <= |ts|
    requires a == ts[i].start && b == ts[j - 1].end && a <= b <= |s| && CutBetween(ts, i, j, a, b)
    ensures Tiles(u, s[a..b], 0, ShiftAll(ts[i..j], -(a as int)), b - a)
  {
    var r, cut := s[a..b], ts[i..j];
    var moved := ShiftAll(cut, -(a as int));
    forall k | 0 <= k < |moved|
      ensures Token(u, r, moved[k])
    {
      CutToken(u, s, ts[i + k], a, b);
    }
    forall k | 0 <= k <= |moved|
      ensures Blank(r, GapStart(0, moved, k), GapEnd(moved, k, b - a))
    {
      assert Blank(s, GapStart(0, ts, i + k), GapEnd(ts, i + k, |s|));
      CutBlank(s, ts, i, j, a, b, moved, k);
    }
  }

  lemma CutToken(u: Unicode, s: string, t: Span, a: nat, b: nat)
    requires Token(u, s, t) && a <= t.start && t.end <= b <= |s|
    ensures Token(u, s[a..b], Shift(t, -(a as int)))
  {
    TokenAgrees(u, s, t, s[a..b], -(a as int));
  }

  /** The gap in front of token `k` of the cut is that in front of token `i + k` of the text, except at the ends. */
  lemma CutBlank(s: string, ts: seq<Span>, i: nat, j: nat, a: nat, b: nat, moved: seq<Span>, k: nat)
    requires i < j <= |ts| && a == ts[i].start && b == ts[j - 1].end && a <= b <= |s| && CutBetween(ts, i, j, a, b)
    requires |moved| == j - i && k <= j - i
    requires forall n :: 0 <= n < |moved| ==> moved[n].start + a == ts[i + n].start && moved[n].end + a == ts[i + n].end
    requires 0 < k < j - i ==> Blank(s, ts[i + k - 1].end, ts[i + k].start)
    ensures Blank(s[a..b], GapStart(0, moved, k), GapEnd(moved, k, b - a))
  {
    if 0 < k < j - i {
      BlankCut(s, a, b, ts[i + k - 1].end, ts[i + k].start);
      assert moved[k - 1].end + a == ts[i + (k - 1)].end;
    } else if k == 0 {
      assert moved[0].start + a == ts[i + 0].start;
    } else {
      assert moved[k - 1].end + a == ts[i + (k - 1)].end;
    }
  }

  lemma BlankCut(s: string, a: nat, b: nat, x: nat, y: nat)
    requires a <= x <= y <= b <= |s| && Blank(s, x, y)
    ensures Blank(s[a..b], x - a, y - a)
  {
  }

  lemma Associative(a: seq<Span>, b: seq<Span>, c: seq<Span>)
    ensures a + b + c == a + (b + c)
  {
  }

  lemma {:induction false} SignificantAppend(a: seq<Span>, b: seq<Span>)
    ensures Significant(a + b) == Significant(a) + Significant(b)
  {
    if a == [] {
      assert a + b == b;
    } else {
      SignificantAppend(a[1..], b);
      var c := a + b;
      assert c[0] == a[0] && c[1..] == a[1..] + b;
      Associative(if a[0].kind == Comment then [] else [a[0]], Significant(a[1..]), Significant(b));
    }
  }

  lemma SignificantGrows(ts: seq<Span>, i: nat, j: nat)
    requires i <= j <= |ts|
    ensures |Significant(ts[..i])| <= |Significant(ts[..j])|
  {
    SignificantAppend(ts[..i], ts[i..j]);
    assert ts[..i] + ts[i..j] == ts[..j];
  }

  /** Where in the token list the significant token number `k` stands. */
  lemma {:induction false} SignificantAt(ts: seq<Span>, k: nat) returns (i: nat)
    requires k < |Significant(ts)|
    ensures i < |ts| && ts[i] == Significant(ts)[k]
    ensures Significant(ts[..i + 1]) == Significant(ts)[..k + 1]
    ensures Significant(ts[..i]) == Significant(ts)[..k]
    decreases |ts|
  {
    var n := |ts| - 1;
    var init := ts[..n];
    assert ts == init + [ts[n]];
    SignificantAppend(init, [ts[n]]);
    assert [ts[n]][1..] == [];
    if k < |Significant(init)| {
      i := SignificantAt(init, k);
      assert ts[..i] == init[..i] && ts[..i + 1] == init[..i + 1];
    } else {
      i := n;
      assert ts[..n + 1] == ts;
    }
  }

  lemma {:induction false} SignificantShift(ts: seq<Span>, d: int)
    requires forall i :: 0 <= i < |ts| ==> 0 <= ts[i].start + d && 0 <= ts[i].end + d
    ensures Significant(ShiftAll(ts, d)) == ShiftAll(Significant(ts), d)
  {
    if ts != [] {
      SignificantShift(ts[1..], d);
      assert ShiftAll(ts, d)[1..] == ShiftAll(ts[1..], d);
    }
  }

  lemma NoSemicolonInStatement(s: string, sig: seq<Span>, i: nat)
    requires !SeveralStatements(s, sig) && i < |Statement(s, sig)|
    ensures !IsSemicolon(s, sig[i])
  {
  }

  /** The statement tokens of an accepted text, on character positions. */
  function StatementOf(u: Unicode, s: string): seq<Span>
    requires ScanText(u, s).Spans?
  {
    Statement(s, Significant(ScanText(u, s).spans))
  }

  /** Cut to `s[a..b]`, the text is accepted again and its statement is `stmt` from token `k`
      on, moved to the front. */
  predicate SameStatement(u: Unicode, s: string, stmt: seq<Span>, k: nat, a: nat, b: nat) {
    && a <= b <= |s| && k < |stmt|
    && CutBetween(stmt, k, |stmt|, a, b)
    && ScanText(u, s[a..b]).Spans?
    && StatementOf(u, s[a..b]) == ShiftAll(stmt[k..], -(a as int))
  }

  /** The text from any statement token to the last one is accepted again, and its statement
      is the same tokens. */
  lemma StatementSlice(u: Unicode, s: string, stmt: seq<Span>, k: nat)
    requires ScanText(u, s).Spans? && stmt == StatementOf(u, s) && k < |stmt|
    ensures SameStatement(u, s, stmt, k, stmt[k].start, stmt[|stmt| - 1].end)
  {
    var ts := ScanText(u, s).spans;
    LexIsTiling(u, s, 0, ts);
    TilesSlice(u, s, ts, stmt, k, stmt[k].start, stmt[|stmt| - 1].end);
  }

  lemma TilesSlice(u: Unicode, s: string, ts: seq<Span>, stmt: seq<Span>, k: nat, a: nat, b: nat)
    requires BOM !in s && Tiles(u, s, 0, ts, |s|) && Judge(s, Significant(ts)) == None
    requires stmt == Statement(s, Significant(ts)) && k < |stmt|
    requires a == stmt[k].start && b == stmt[|stmt| - 1].end
    ensures SameStatement(u, s, stmt, k, a, b)
  {
    var moved := SliceTiles(u, s, ts, stmt, k, a, b);
    SliceJudged(s, Significant(ts), k, a, b);
    NoBomWithin(s, a, b);
    var cut := ShiftAll(stmt[k..], -(a as int));
    Accept(u, s[a..b], moved, cut);
    assert ScanText(u, s[a..b]).Spans? && StatementOf(u, s[a..b]) == cut;
  }

  lemma NoBomWithin(s: string, a: nat, b: nat)
    requires a <= b <= |s| && BOM !in s
    ensures BOM !in s[a..b]
  {
  }

  lemma SliceTiles(u: Unicode, s: string, ts: seq<Span>, stmt: seq<Span>, k: nat, a: nat, b: nat)
    returns (moved: seq<Span>)
    requires Tiles(u, s, 0, ts, |s|) && stmt <= Significant(ts) && k < |stmt|
    requires a == stmt[k].start && b == stmt[|stmt| - 1].end
    ensures a < b <= |s| && CutBetween(stmt, k, |stmt|, a, b)
    ensures Tiles(u, s[a..b], 0, moved, b - a)
    ensures Significant(moved) == ShiftAll(stmt[k..], -(a as int))
  {
    var i, j := StatementCut(ts, stmt, k);
    CutBounds(u, s, ts, i, j);
    CutTiles(u, s, ts, i, j, a, b);
    StatementWithin(ts, i, j, stmt, k, a, b);
    SignificantShift(ts[i..j], -(a as int));
    moved := ShiftAll(ts[i..j], -(a as int));
  }

  lemma Accept(u: Unicode, s: string, ts: seq<Span>, stmt: seq<Span>)
    requires BOM !in s && Tiles(u, s, 0, ts, |s|)
    requires Significant(ts) == stmt == Statement(s, stmt) && Judge(s, stmt) == None
    ensures ScanText(u, s).Spans? && StatementOf(u, s) == stmt
  {
    LexIsTiling(u, s, 0, ts);
  }

  lemma StatementWithin(ts: seq<Span>, i: nat, j: nat, stmt: seq<Span>, k: nat, a: nat, b: nat)
    requires CutBetween(ts, i, j, a, b) && k <= |stmt| && Significant(ts[i..j]) == stmt[k..]
    ensures CutBetween(stmt, k, |stmt|, a, b)
  {
  }

  /** The tokens of the list that the statement tokens from `k` on span, comments included. */
  lemma StatementCut(ts: seq<Span>, stmt: seq<Span>, k: nat) returns (i: nat, j: nat)
    requires stmt <= Significant(ts) && k < |stmt|
    ensures i < j <= |ts| && ts[i] == stmt[k] && ts[j - 1] == stmt[|stmt| - 1]
    ensures Significant(ts[i..j]) == stmt[k..]
  {
    var sig := Significant(ts);
    i := SignificantAt(ts, k);
    var last := SignificantAt(ts, |stmt| - 1);
    j := last + 1;
    assert sig[..|stmt|] == stmt;
    if j <= i {
      SignificantGrows(ts, j, i);
      assert false;
    }
    SignificantBetween(ts, i, j, stmt, k);
  }

  lemma SignificantBetween(ts: seq<Span>, i: nat, j: nat, stmt: seq<Span>, k: nat)
    requires i <= j <= |ts| && k <= |stmt|
    requires Significant(ts[..i]) == stmt[..k] && Significant(ts[..j]) == stmt
    ensures Significant(ts[i..j]) == stmt[k..]
  {
    SignificantAppend(ts[..i], ts[i..j]);
    assert ts[..i] + ts[i..j] == ts[..j];
    assert stmt == stmt[..k] + Significant(ts[i..j]);
  }

  /** Token `n` of the cut text is token `n + k` of the statement. */
  lemma SlicePiece(s: string, sig: seq<Span>, k: nat, a: nat, b: nat, n: nat)
    requires Judge(s, sig) == None && n + k < |Statement(s, sig)|
    requires a <= b <= |s| && CutBetween(Statement(s, sig), k, |Statement(s, sig)|, a, b)
    ensures var t := Shift(Statement(s, sig)[n + k], -(a as int));
            && !IsSemicolon(s[a..b], t)
            && s[a..b][t.start..t.end] == s[sig[n + k].start..sig[n + k].end]
  {
    var t := Statement(s, sig)[n + k];
    assert a <= t.start < t.end <= b && t == sig[n + k];
    PieceOfCut(s, a, b, t.start, t.end);
  }

  lemma PieceOfCut(s: string, a: nat, b: nat, x: nat, y: nat)
    requires a <= x <= y <= b <= |s|
    ensures s[a..b][x - a..y - a] == s[x..y]
  {
    var cut := s[a..b][x - a..y - a];
    assert forall i :: 0 <= i < |cut| ==> cut[i] == s[x + i];
  }

  /** Cutting an acceptable statement out keeps it acceptable. */
  lemma SliceJudged(s: string, sig: seq<Span>, k: nat, a: nat, b: nat)
    requires Judge(s, sig) == None && k < |Statement(s, sig)|
    requires a <= b <= |s| && CutBetween(Statement(s, sig), k, |Statement(s, sig)|, a, b)
    ensures var moved := ShiftAll(Statement(s, sig)[k..], -(a as int));
            Judge(s[a..b], moved) == None && Statement(s[a..b], moved) == moved
  {
    var stmt, r := Statement(s, sig), s[a..b];
    var moved := ShiftAll(stmt[k..], -(a as int));
    forall n | 0 <= n < |moved|
      ensures !IsSemicolon(r, moved[n])
      ensures r[moved[n].start..moved[n].end] == s[sig[n + k].start..sig[n + k].end]
    {
      SlicePiece(s, sig, k, a, b, n);
    }
    forall n | 0 <= n < |moved| - 1
      ensures !IntoFile(r, moved[n], moved[n + 1])
    {
      assert !IntoFile(s, sig[n + k], sig[n + k + 1]);
    }
  }
}
