/**
 The guarantees of the scan restated on the bytes the guard handles: where the recorded byte
 ranges lie, that they always decode, and that the bytes of a statement are a statement.
 */
module SqlTokensBytes {
  import opened Wrappers
  import opened Utf8
  import opened SqlTokens
  import opened SqlTokensTheorems
  import opened SqlTokensContent

  // ---- between the two views of an accepted text ----

  /** Acceptance on bytes is acceptance of the one text that the bytes encode. */
  lemma ScanOfEncoding(u: Unicode, s: string)
    requires |Encode(s)| <= SQL_MAX_BYTES
    ensures ScanText(u, s).Refused? ==> Scan(u, Encode(s)) == Err(ScanText(u, s).reason)
    ensures ScanText(u, s).Spans? ==>
              Within(s, ScanText(u, s).spans)
              && Scan(u, Encode(s)) == Ok(TokenScan(Encode(s), ToTokens(s, ScanText(u, s).spans)))
  {
    DecodeEncode(s);
    WithinScan(u, s);
  }

  /** The text behind an accepted scan. */
  function SourceText(raw: seq<byte>): string
    requires Decode(raw).Some?
  {
    Decode(raw).value
  }

  lemma AcceptedText(u: Unicode, raw: seq<byte>)
    requires Scan(u, raw).Ok?
    ensures Decode(raw).Some? && Encode(SourceText(raw)) == raw
    ensures var s := SourceText(raw);
            && ScanText(u, s).Spans? && Within(s, ScanText(u, s).spans)
            && Scan(u, raw).value == TokenScan(raw, ToTokens(s, ScanText(u, s).spans))
  {
    EncodeDecode(raw);
    WithinScan(u, SourceText(raw));
  }

  lemma OffsetMonotone(s: string, i: nat, j: nat)
    requires i <= j <= |s|
    ensures Offset(s, i) <= Offset(s, j) <= |Encode(s)| && (i < j ==> Offset(s, i) < Offset(s, j))
  {
    EncodeRange(s, i, j);
  }

  lemma FirstByte(s: string, i: nat)
    requires i < |s|
    ensures Offset(s, i) < |Encode(s)| && Encode(s)[Offset(s, i)] == EncodeChar(s[i])[0]
  {
    EncodeRange(s, i, i + 1);
    assert s[i..i + 1] == [s[i]];
    assert Encode([s[i]]) == EncodeChar(s[i]) + Encode([s[i]][1..]);
    assert Encode(s)[Offset(s, i)..Offset(s, i + 1)][0] == Encode(s)[Offset(s, i)];
  }

  /** On a token, the semicolon test on bytes is the test on characters. */
  lemma SemicolonByte(s: string, scan: TokenScan, t: Span)
    requires t.start < t.end <= |s| && scan.raw == Encode(s)
    ensures SemicolonToken(scan, ToToken(s, t)) == IsSemicolon(s, t)
  {
    FirstByte(s, t.start);
  }

  lemma {:induction false} SignificantWithin(s: string, ts: seq<Span>)
    requires Within(s, ts)
    ensures Within(s, Significant(ts))
    ensures SignificantTokens(ToTokens(s, ts)) == ToTokens(s, Significant(ts))
  {
    if ts != [] {
      var rest := Significant(ts[1..]);
      SignificantWithin(s, ts[1..]);
      assert ToTokens(s, ts)[1..] == ToTokens(s, ts[1..]);
      if ts[0].kind == Comment {
        assert Significant(ts) == rest;
      } else {
        assert Significant(ts)[1..] == rest;
      }
    }
  }

  lemma StatementBytes(s: string, ts: seq<Span>)
    requires Within(s, ts)
    ensures Within(s, Statement(s, Significant(ts)))
    ensures StatementTokens(TokenScan(Encode(s), ToTokens(s, ts))) == ToTokens(s, Statement(s, Significant(ts)))
  {
    SignificantWithin(s, ts);
    var sig, scan := Significant(ts), TokenScan(Encode(s), ToTokens(s, ts));
    if sig != [] {
      SemicolonByte(s, scan, sig[|sig| - 1]);
    }
    TrailingSemicolon(s, scan, sig);
  }

  lemma TrailingSemicolon(s: string, scan: TokenScan, sig: seq<Span>)
    requires Within(s, sig) && SignificantTokens(scan.tokens) == ToTokens(s, sig)
    requires sig != [] ==> SemicolonToken(scan, ToToken(s, sig[|sig| - 1])) == IsSemicolon(s, sig[|sig| - 1])
    ensures Within(s, Statement(s, sig))
    ensures StatementTokens(scan) == ToTokens(s, Statement(s, sig))
  {
    if sig != [] {
      ToTokensTake(s, sig, |sig| - 1);
    }
  }

  lemma ToTokensTake(s: string, ts: seq<Span>, n: nat)
    requires Within(s, ts) && n <= |ts|
    ensures Within(s, ts[..n]) && ToTokens(s, ts[..n]) == ToTokens(s, ts)[..n]
  {
  }

  // ---- layout ----

  /** The character that a byte belongs to. */
  lemma {:induction false} CharOfByte(s: string, k: nat) returns (q: nat)
    requires k < |Encode(s)|
    ensures q < |s| && Offset(s, q) <= k < Offset(s, q + 1)
    ensures Ascii(s[q]) ==> k == Offset(s, q) && Encode(s)[k] == s[q] as int
    decreases |s|
  {
    q := |s|;
    assert s[..|s|] == s;
    while Offset(s, q) > k
      invariant q <= |s| && k < |Encode(s)|
      invariant q < |s| ==> k < Offset(s, q + 1)
      decreases q
    {
      q := q - 1;
    }
    OffsetStep(s, q);
    FirstByte(s, q);
  }

  predicate BlankByte(b: byte) { b == 0x20 || b == 0x09 || b == 0x0D || b == 0x0A }

  /** Byte `k` lies in one of the tokens, and in a quoted one or a comment if beyond ASCII. */
  predicate InToken(tokens: seq<SqlToken>, raw: seq<byte>, k: nat)
    requires k < |raw|
  {
    exists i :: 0 <= i < |tokens| && tokens[i].startByte <= k < tokens[i].endByte
                && (tokens[i].kind == Word || tokens[i].kind == Symbol ==> raw[k] < 0x80)
  }

  /** Every byte of an accepted text is white space or lies in a token, and bytes beyond ASCII
      lie in strings, quoted identifiers and comments only. */
  lemma AcceptedByte(u: Unicode, raw: seq<byte>, k: nat)
    requires Scan(u, raw).Ok? && k < |raw|
    ensures BlankByte(raw[k]) || InToken(Scan(u, raw).value.tokens, raw, k)
  {
    AcceptedText(u, raw);
    var s := SourceText(raw);
    var q := CharOfByte(s, k);
    AcceptedCharacter(u, s, q);
    if !Whitespace(s[q]) {
      var ts := ScanText(u, s).spans;
      var t :| t in ts && t.start <= q < t.end && (t.kind == Word || t.kind == Symbol ==> Ascii(s[q]));
      ByteInToken(s, ts, t, k, q);
    }
  }

  lemma ByteInToken(s: string, ts: seq<Span>, t: Span, k: nat, q: nat)
    requires Within(s, ts) && t in ts && q < |s| && t.start <= q < t.end
    requires t.kind == Word || t.kind == Symbol ==> Ascii(s[q])
    requires k < |Encode(s)| && Offset(s, q) <= k < Offset(s, q + 1)
    requires Ascii(s[q]) ==> Encode(s)[k] == s[q] as int
    ensures InToken(ToTokens(s, ts), Encode(s), k)
  {
    OffsetMonotone(s, t.start, q);
    OffsetMonotone(s, q + 1, t.end);
    var i :| 0 <= i < |ts| && ts[i] == t;
    assert ToTokens(s, ts)[i] == ToToken(s, t);
  }

  /** The byte ranges are non-empty, ordered and disjoint, lie in the text and decode. */
  lemma TokenRanges(u: Unicode, raw: seq<byte>, i: nat)
    requires Scan(u, raw).Ok? && i < |Scan(u, raw).value.tokens|
    ensures var ts := Scan(u, raw).value.tokens;
            && ts[i].startByte < ts[i].endByte <= |raw|
            && (i + 1 < |ts| ==> ts[i].endByte <= ts[i + 1].startByte)
            && TextBetween(raw, ts[i].startByte, ts[i].endByte).Some?
  {
    AcceptedText(u, raw);
    var s := SourceText(raw);
    var ts := ScanText(u, s).spans;
    LexIsTiling(u, s, 0, ts);
    SpanRange(u, s, ts, i);
    if i + 1 < |ts| {
      SpansApart(u, s, ts, i);
    }
  }

  lemma SpanRange(u: Unicode, s: string, ts: seq<Span>, i: nat)
    requires Tiles(u, s, 0, ts, |s|) && i < |ts|
    ensures ts[i].start < ts[i].end <= |s|
    ensures Offset(s, ts[i].start) < Offset(s, ts[i].end) <= |Encode(s)|
    ensures TextBetween(Encode(s), Offset(s, ts[i].start), Offset(s, ts[i].end)).Some?
  {
    assert Token(u, s, ts[i]);
    OffsetMonotone(s, ts[i].start, ts[i].end);
    BetweenDecodes(s, ts[i].start, ts[i].end);
  }

  lemma SpansApart(u: Unicode, s: string, ts: seq<Span>, i: nat)
    requires Tiles(u, s, 0, ts, |s|) && i + 1 < |ts|
    ensures ts[i].end <= ts[i + 1].start <= |s|
    ensures Offset(s, ts[i].end) <= Offset(s, ts[i + 1].start)
  {
    TilesOrdered(u, s, 0, ts, |s|, i, i + 1);
    assert Token(u, s, ts[i + 1]);
    OffsetMonotone(s, ts[i].end, ts[i + 1].start);
  }

  lemma BetweenDecodes(s: string, a: nat, b: nat)
    requires a <= b <= |s|
    ensures TextBetween(Encode(s), Offset(s, a), Offset(s, b)) == Some(s[a..b])
  {
    EncodeRange(s, a, b);
    DecodeEncode(s[a..b]);
  }

  /** A statement has tokens and none of them is a `;`. */
  lemma StatementHasTokens(u: Unicode, raw: seq<byte>)
    requires Scan(u, raw).Ok?
    ensures StatementTokens(Scan(u, raw).value) != []
    ensures forall i :: 0 <= i < |StatementTokens(Scan(u, raw).value)| ==>
              !SemicolonToken(Scan(u, raw).value, StatementTokens(Scan(u, raw).value)[i])
  {
    AcceptedText(u, raw);
    var s := SourceText(raw);
    var ts := ScanText(u, s).spans;
    StatementBytes(s, ts);
    NoSemicolonBytes(s, Significant(ts), Scan(u, raw).value);
  }

  lemma NoSemicolonBytes(s: string, sig: seq<Span>, scan: TokenScan)
    requires Judge(s, sig) == None && Within(s, Statement(s, sig)) && scan.raw == Encode(s)
    ensures forall i :: 0 <= i < |Statement(s, sig)| ==> !SemicolonToken(scan, ToTokens(s, Statement(s, sig))[i])
  {
    var stmt := Statement(s, sig);
    forall i | 0 <= i < |stmt|
      ensures !SemicolonToken(scan, ToTokens(s, stmt)[i])
    {
      NoSemicolonInStatement(s, sig, i);
      SemicolonByte(s, scan, stmt[i]);
    }
  }

  // ---- cutting a statement out ----

  function Moved(t: SqlToken, d: int): SqlToken
    requires 0 <= t.startByte + d && 0 <= t.endByte + d
  {
    SqlToken(t.kind, t.startByte + d, t.endByte + d)
  }

  /** `cut` are the tokens of `stmt` from `k` on, counted from byte `a`; they end by `b`. */
  predicate CountedFrom(cut: seq<SqlToken>, stmt: seq<SqlToken>, k: nat, a: nat, b: nat) {
    && |cut| + k == |stmt|
    && forall i :: 0 <= i < |cut| ==>
         a <= stmt[i + k].startByte <= stmt[i + k].endByte <= b && cut[i] == Moved(stmt[i + k], -(a as int))
  }

  /** Scanning `raw[a..b]` gives, as its statement, `stmt` from token `k` on. */
  predicate RescansAs(u: Unicode, raw: seq<byte>, stmt: seq<SqlToken>, k: nat, a: nat, b: nat) {
    && a < b <= |raw| && TextBetween(raw, a, b).Some?
    && Scan(u, raw[a..b]).Ok?
    && CountedFrom(StatementTokens(Scan(u, raw[a..b]).value), stmt, k, a, b)
  }

  /** Re-scanning the bytes from any statement token to the last one accepts them and finds
      the same tokens: what is analysed further is the statement itself. */
  lemma StatementRescans(u: Unicode, raw: seq<byte>, stmt: seq<SqlToken>, k: nat)
    requires Scan(u, raw).Ok? && stmt == StatementTokens(Scan(u, raw).value) && k < |stmt|
    ensures RescansAs(u, raw, stmt, k, stmt[k].startByte, stmt[|stmt| - 1].endByte)
  {
    AcceptedText(u, raw);
    var s := SourceText(raw);
    var spans := StatementOf(u, s);
    StatementBytes(s, ScanText(u, s).spans);
    assert stmt == ToTokens(s, spans) && raw == Encode(s);
    assert stmt[k] == ToToken(s, spans[k]) && stmt[|stmt| - 1] == ToToken(s, spans[|spans| - 1]);
    TextRescans(u, s, spans, k);
  }

  lemma TextRescans(u: Unicode, s: string, spans: seq<Span>, k: nat)
    requires |Encode(s)| <= SQL_MAX_BYTES && ScanText(u, s).Spans?
    requires spans == StatementOf(u, s) && Within(s, spans) && k < |spans|
    ensures RescansAs(u, Encode(s), ToTokens(s, spans), k,
                      Offset(s, spans[k].start), Offset(s, spans[|spans| - 1].end))
  {
    StatementSlice(u, s, spans, k);
    CutRescans(u, s, spans, k, spans[k].start, spans[|spans| - 1].end);
  }

  lemma CutRescans(u: Unicode, s: string, spans: seq<Span>, k: nat, a: nat, b: nat)
    requires SameStatement(u, s, spans, k, a, b) && Within(s, spans) && |Encode(s)| <= SQL_MAX_BYTES
    requires a < b
    ensures RescansAs(u, Encode(s), ToTokens(s, spans), k, Offset(s, a), Offset(s, b))
  {
    var r := s[a..b];
    EncodeRange(s, a, b);
    BetweenDecodes(s, a, b);
    ScanOfEncoding(u, r);
    StatementBytes(r, ScanText(u, r).spans);
    CutCounted(s, spans, k, a, b);
  }

  lemma CutCounted(s: string, spans: seq<Span>, k: nat, a: nat, b: nat)
    requires a <= b <= |s| && k <= |spans| && Within(s, spans) && CutBetween(spans, k, |spans|, a, b)
    ensures var cut := ShiftAll(spans[k..], -(a as int));
            Within(s[a..b], cut)
            && CountedFrom(ToTokens(s[a..b], cut), ToTokens(s, spans), k, Offset(s, a), Offset(s, b))
  {
    var cut := ShiftAll(spans[k..], -(a as int));
    forall i | 0 <= i < |cut|
      ensures Offset(s, a) <= ToToken(s, spans[i + k]).startByte <= ToToken(s, spans[i + k]).endByte <= Offset(s, b)
      ensures ToTokens(s[a..b], cut)[i] == Moved(ToToken(s, spans[i + k]), -(Offset(s, a) as int))
    {
      TokenInCut(s, spans[i + k], a, b);
    }
  }

  lemma TokenInCut(s: string, t: Span, a: nat, b: nat)
    requires a <= t.start < t.end <= b <= |s|
    ensures Offset(s, a) <= Offset(s, t.start) <= Offset(s, t.end) <= Offset(s, b)
    ensures ToToken(s[a..b], Shift(t, -(a as int))) == Moved(ToToken(s, t), -(Offset(s, a) as int))
  {
    OffsetMonotone(s, a, t.start);
    OffsetMonotone(s, t.start, t.end);
    OffsetMonotone(s, t.end, b);
    OffsetInRange(s, a, b, t.start);
    OffsetInRange(s, a, b, t.end);
  }

  /** Refused for the same reason, or accepted with tokens of the same kinds. */
  predicate SameVerdict(a: Result<TokenScan, Reason>, b: Result<TokenScan, Reason>) {
    match (a, b)
    case (Err(why), Err(reason)) => why == reason
    case (Ok(x), Ok(y)) =>
      |x.tokens| == |y.tokens| && forall j :: 0 <= j < |x.tokens| ==> x.tokens[j].kind == y.tokens[j].kind
    case _ => false
  }

  /** Content between quotes decides nothing on bytes either, within the size limit. */
  lemma ContentDoesNotInterfereInBytes(u: Unicode, s: string, front: seq<Span>, t: Span, body: string)
    requires Tiles(u, s, 0, front, t.start) && Token(u, s, t) && Quoted(t)
    requires Body(u, s[t.start], t.kind == StringLiteral, body)
    requires t.start + 1 < t.end
    requires |Encode(s)| <= SQL_MAX_BYTES && |Encode(Rewritten(s, t, body))| <= SQL_MAX_BYTES
    ensures SameVerdict(Scan(u, Encode(s)), Scan(u, Encode(Rewritten(s, t, body))))
  {
    var r := Rewritten(s, t, body);
    ContentDoesNotInterfere(u, s, front, t, body);
    ScanOfEncoding(u, s);
    ScanOfEncoding(u, r);
    if ScanText(u, s).Spans? {
      KindsPointwise(ScanText(u, s).spans, ScanText(u, r).spans);
    }
  }

  lemma KindsPointwise(a: seq<Span>, b: seq<Span>)
    requires Kinds(a) == Kinds(b)
    ensures |a| == |b| && forall j :: 0 <= j < |a| ==> a[j].kind == b[j].kind
  {
    assert |Kinds(a)| == |a| && |Kinds(b)| == |b|;
    forall j | 0 <= j < |a|
      ensures a[j].kind == b[j].kind
    {
      assert Kinds(a)[j] == a[j].kind && Kinds(b)[j] == b[j].kind;
    }
  }

  // ---- the verdict on bytes ----

  /** The token in bytes that a token in characters is: between the lengths of the encoded text in front of its
      start and of its end. */
  predicate InBytes(s: string, t: Span, b: SqlToken) {
    && t.start <= t.end <= |s| && b.kind == t.kind
    && b.startByte == |Encode(s[..t.start])| && b.endByte == |Encode(s[..t.end])|
  }

  /** Too many bytes and bytes that encode no text are refused; otherwise the text decides, and the tokens are its
      tokens in bytes. */
  lemma ScanMeans(u: Unicode, raw: seq<byte>, s: string)
    ensures |raw| > 65536 ==> Scan(u, raw) == Err(TooLong)
    ensures |raw| <= 65536 && (forall text :: Encode(text) != raw) ==> Scan(u, raw) == Err(InvalidUtf8)
    ensures |raw| <= 65536 && Encode(s) == raw && ScanText(u, s).Refused? ==>
              Scan(u, raw) == Err(ScanText(u, s).reason)
    ensures |raw| <= 65536 && Encode(s) == raw && ScanText(u, s).Spans? ==>
              && Scan(u, raw).Ok? && Scan(u, raw).value.raw == raw
              && var ts, bs := ScanText(u, s).spans, Scan(u, raw).value.tokens;
                 |bs| == |ts| && forall i :: 0 <= i < |ts| ==> InBytes(s, ts[i], bs[i])
  {
    if Decode(raw).Some? {
      EncodeDecode(raw);
      assert Encode(Decode(raw).value) == raw;
    }
    if |raw| <= 65536 && Encode(s) == raw {
      ScanOfEncoding(u, s);
    }
  }

  lemma ScanKeepsRaw(u: Unicode, raw: seq<byte>)
    requires Scan(u, raw).Ok?
    ensures Scan(u, raw).value.raw == raw
  {
  }

  /** The statement of an accepted text: its tokens besides comments and the `;`, in their order. */
  lemma StatementMembers(u: Unicode, raw: seq<byte>, t: SqlToken)
    requires Scan(u, raw).Ok?
    ensures var scan := Scan(u, raw).value;
            t in StatementTokens(scan)
            <==> t in scan.tokens && t.kind != Comment
                 && !(t.kind == Symbol && t.startByte < |raw| && raw[t.startByte] == 0x3B)
  {
    var scan := Scan(u, raw).value;
    StatementHasTokens(u, raw);
    SignificantMembers(scan.tokens, t);
    KeptMembers(scan, SignificantTokens(scan.tokens), t);
  }

  lemma KeptMembers(scan: TokenScan, sig: seq<SqlToken>, t: SqlToken)
    requires sig == SignificantTokens(scan.tokens)
    requires forall i :: 0 <= i < |StatementTokens(scan)| ==> !SemicolonToken(scan, StatementTokens(scan)[i])
    ensures t in StatementTokens(scan) <==> t in sig && !SemicolonToken(scan, t)
  {
    var kept := StatementTokens(scan);
    if t in sig && !SemicolonToken(scan, t) {
      var i :| 0 <= i < |sig| && sig[i] == t;
      assert i < |kept| && kept[i] == t;
    }
  }

  lemma {:induction false} SignificantMembers(tokens: seq<SqlToken>, t: SqlToken)
    ensures t in SignificantTokens(tokens) <==> t in tokens && t.kind != Comment
  {
    if tokens != [] {
      SignificantMembers(tokens[1..], t);
    }
  }
}
