/**
 The scanner itself: one pass that advances a character position and a byte offset together
 and appends tokens, and the checks that follow it. Every method is tied to the functions of
 `SqlTokens`; a returned reason stands for the exception that the scan raises.
 */
module SqlScanner {
  import opened Wrappers
  import opened Utf8
  import opened SqlTokens
  import opened SqlTokensBytes

  class Scanner {
    const u: Unicode
    const text: string
    var pos: nat
    var byteOffset: nat
    var tokens: seq<SqlToken>

    /** The byte offset is the encoded length of the characters consumed so far. */
    ghost predicate Valid()
      reads this
    {
      pos <= |text| && byteOffset == Offset(text, pos)
    }

    constructor (u: Unicode, text: string)
      ensures Valid() && this.u == u && this.text == text && pos == 0 && tokens == []
    {
      this.u, this.text, pos, byteOffset, tokens := u, text, 0, 0, [];
    }

    predicate PeekIs(ahead: nat, c: char)
      reads this
    {
      Is(text, pos + ahead, c)
    }

    method Advance() returns (r: Result<char, Reason>)
      requires Valid() && pos < |text|
      modifies this`pos, this`byteOffset
      ensures Valid()
      ensures match CheckChar(u, text[old(pos)])
              case Some(why) => r == Err(why) && pos == old(pos)
              case None => r == Ok(text[old(pos)]) && pos == old(pos) + 1
    {
      var c := text[pos];
      var why := CheckChar(u, c);
      if why.Some? {
        return Err(why.value);
      }
      OffsetStep(text, pos);
      pos := pos + 1;
      byteOffset := byteOffset + |EncodeChar(c)|;
      return Ok(c);
    }

    /** The effect shared by the token methods: stop at the end the function gives, or report
        its reason. */
    ghost predicate Reached(e: End, why: Option<Reason>)
      reads this
    {
      match e
      case At(p) => why == None && pos == p
      case Bad(reason) => why == Some(reason)
    }

    method LineComment() returns (why: Option<Reason>)
      requires Valid()
      modifies this`pos, this`byteOffset
      ensures Valid() && Reached(LineEnd(u, text, old(pos)), why)
    {
      why := None;
      while pos < |text| && !LineBreak(text[pos])
        invariant Valid()
        invariant LineEnd(u, text, pos) == LineEnd(u, text, old(pos))
        decreases |text| - pos
      {
        var r := Advance();
        if r.Err? {
          return Some(r.error);
        }
      }
    }

    method BlockComment() returns (why: Option<Reason>)
      requires Valid() && PeekIs(0, '/') && PeekIs(1, '*')
      modifies this`pos, this`byteOffset
      ensures Valid() && Reached(EndAt(u, text, old(pos)), why)
    {
      why := None;
      if PeekIs(2, '+') || PeekIs(2, '!') {
        return Some(HintComment);
      }
      var slash := Advance();
      var star := Advance();
      while pos < |text|
        invariant Valid()
        invariant BlockEnd(u, text, pos) == EndAt(u, text, old(pos))
        decreases |text| - pos
      {
        if PeekIs(0, '*') && PeekIs(1, '/') {
          star := Advance();
          slash := Advance();
          return;
        }
        var r := Advance();
        if r.Err? {
          return Some(r.error);
        }
      }
      return Some(Unterminated);
    }

    method Quoted(quote: char, backslash: bool) returns (why: Option<Reason>)
      requires Valid() && PeekIs(0, quote) && QuoteMark(quote)
      modifies this`pos, this`byteOffset
      ensures Valid() && Reached(QuotedEnd(u, text, old(pos) + 1, quote, backslash), why)
    {
      why := None;
      var r := Advance();
      while pos < |text|
        invariant Valid()
        invariant QuotedEnd(u, text, pos, quote, backslash) == QuotedEnd(u, text, old(pos) + 1, quote, backslash)
        decreases |text| - pos
      {
        r := Advance();
        if r.Err? {
          return Some(r.error);
        }
        if backslash && r.value == '\\' {
          if pos >= |text| {
            break;
          }
          r := Advance();
          if r.Err? {
            return Some(r.error);
          }
        } else if r.value == quote {
          if !PeekIs(0, quote) {
            return;
          }
          r := Advance();
        }
      }
      return Some(Unterminated);
    }

    method WordToken()
      requires Valid() && pos < |text| && WordChar(text[pos])
      modifies this`pos, this`byteOffset
      ensures Valid() && pos == WordEnd(text, old(pos) + 1)
    {
      while pos < |text| && WordChar(text[pos])
        invariant Valid()
        invariant WordEnd(text, pos) == WordEnd(text, old(pos))
        decreases |text| - pos
      {
        var r := Advance();
      }
    }

    /** One token from the current position, as the branches of the main loop choose it. */
    method Next() returns (why: Option<Reason>, kind: TokenKind)
      requires Valid() && pos < |text| && !Whitespace(text[pos])
      modifies this`pos, this`byteOffset
      ensures Valid() && Reached(EndAt(u, text, old(pos)), why)
      ensures kind == KindAt(text, old(pos))
    {
      var c := text[pos];
      why := None;
      if (c == '-' && PeekIs(1, '-')) || c == '#' {
        kind := Comment;
        why := LineComment();
      } else if c == '/' && PeekIs(1, '*') {
        kind := Comment;
        why := BlockComment();
      } else if c == '\'' || c == '"' {
        kind := StringLiteral;
        why := Quoted(c, true);
      } else if c == '`' {
        kind := QuotedIdentifier;
        why := Quoted(c, false);
      } else if WordChar(c) {
        kind := Word;
        WordToken();
      } else if Ascii(c) {
        kind := Symbol;
        var r := Advance();
        if r.Err? {
          why := Some(r.error);
        }
      } else {
        kind := Symbol;
        var check := CheckChar(u, c);
        why := if check.Some? then check else Some(AmbiguousPunctuation);
      }
    }

    /** The whole pass: the tokens recorded are those of `Lex`, on bytes. */
    method Run() returns (why: Option<Reason>)
      requires Valid() && pos == 0 && tokens == []
      modifies this
      ensures match Lex(u, text, 0)
              case Refused(reason) => why == Some(reason)
              case Spans(spans) => why == None && tokens == ToTokens(text, spans)
    {
      why := None;
      ghost var spans: seq<Span> := [];
      while pos < |text|
        invariant why == None && Valid() && Within(text, spans) && tokens == ToTokens(text, spans)
        invariant Lex(u, text, 0) == Prepend(spans, Lex(u, text, pos))
        decreases |text| - pos
      {
        if Whitespace(text[pos]) {
          var r := Advance();
        } else {
          var startByte := byteOffset;
          ghost var start := pos;
          var kind;
          why, kind := Next();
          if why.Some? {
            return;
          }
          Recorded(text, spans, Span(kind, start, pos), Lex(u, text, pos));
          tokens := tokens + [SqlToken(kind, startByte, byteOffset)];
          spans := spans + [Span(kind, start, pos)];
        }
      }
      assert spans + [] == spans;
    }
  }

  predicate QuoteMark(c: char) { c == '\'' || c == '"' || c == '`' }

  lemma Recorded(s: string, spans: seq<Span>, t: Span, rest: Lexed)
    requires Within(s, spans) && t.start < t.end <= |s|
    ensures Within(s, spans + [t])
    ensures ToTokens(s, spans + [t]) == ToTokens(s, spans) + [ToToken(s, t)]
    ensures Prepend(spans, Prepend([t], rest)) == Prepend(spans + [t], rest)
  {
    if rest.Spans? {
      assert spans + ([t] + rest.spans) == spans + [t] + rest.spans;
    }
  }

  /** The upper-cased text of a word, and the empty string for any other token. */
  function WordText(raw: seq<byte>, t: SqlToken): string {
    if t.kind != Word then []
    else match TextBetween(raw, t.startByte, t.endByte)
      case Some(text) => UpperWord(text)
      case None => []
  }

  lemma WordTextIs(s: string, t: Span, upper: string)
    requires t.start < t.end <= |s| && upper != []
    ensures WordText(Encode(s), ToToken(s, t)) == upper <==> WordIs(s, t, upper)
  {
    BetweenDecodes(s, t.start, t.end);
  }

  lemma SemicolonAt(s: string, sig: seq<Span>, scan: TokenScan, i: nat)
    requires Within(s, sig) && scan.raw == Encode(s) && i < |sig|
    ensures SemicolonToken(scan, ToTokens(s, sig)[i]) == IsSemicolon(s, sig[i])
  {
    SemicolonByte(s, scan, sig[i]);
  }

  /** The loop that refuses a `;` anywhere but at the end. */
  method OnlyLastEnds(scan: TokenScan, significant: seq<SqlToken>) returns (one: bool)
    ensures one <==> forall j :: 0 <= j < |significant| - 1 ==> !SemicolonToken(scan, significant[j])
  {
    for i := 0 to |significant|
      invariant forall j :: 0 <= j < i && j < |significant| - 1 ==> !SemicolonToken(scan, significant[j])
    {
      if SemicolonToken(scan, significant[i]) && i != |significant| - 1 {
        return false;
      }
    }
    return true;
  }

  /** It finds exactly the texts of more than one statement. */
  method OneStatement(ghost s: string, ghost sig: seq<Span>, scan: TokenScan, significant: seq<SqlToken>)
    returns (one: bool)
    requires Within(s, sig) && scan.raw == Encode(s) && significant == ToTokens(s, sig)
    ensures one == !SeveralStatements(s, sig)
  {
    one := OnlyLastEnds(scan, significant);
    forall i | 0 <= i < |sig|
      ensures SemicolonToken(scan, significant[i]) == IsSemicolon(s, sig[i])
    {
      SemicolonAt(s, sig, scan, i);
    }
  }

  /** The loop over neighbouring words that refuses an export to a file. */
  method NoExport(ghost s: string, ghost sig: seq<Span>, scan: TokenScan, significant: seq<SqlToken>)
    returns (none: bool)
    requires Within(s, sig) && scan.raw == Encode(s) && significant == ToTokens(s, sig)
    ensures none == !ExportsToFile(s, sig)
  {
    var i := 1;
    while i < |significant|
      invariant 1 <= i
      invariant forall j :: 0 <= j < i - 1 && j < |sig| - 1 ==> !IntoFile(s, sig[j], sig[j + 1])
    {
      WordTextIs(s, sig[i - 1], "INTO");
      WordTextIs(s, sig[i], "OUTFILE");
      WordTextIs(s, sig[i], "DUMPFILE");
      var following := WordText(scan.raw, significant[i]);
      if WordText(scan.raw, significant[i - 1]) == "INTO" && (following == "OUTFILE" || following == "DUMPFILE") {
        assert IntoFile(s, sig[i - 1], sig[i - 1 + 1]);
        return false;
      }
      i := i + 1;
    }
    return true;
  }

  /** Scans one SQL text given as bytes. */
  method ScanSql(u: Unicode, raw: seq<byte>) returns (r: Result<TokenScan, Reason>)
    ensures r == Scan(u, raw)
  {
    if |raw| > SQL_MAX_BYTES {
      return Err(TooLong);
    }
    var decoded := Decode(raw);
    if decoded.None? {
      return Err(InvalidUtf8);
    }
    var text := decoded.value;
    EncodeDecode(raw);
    if BOM in text {
      return Err(Bom);
    }
    var scanner := new Scanner(u, text);
    var why := scanner.Run();
    if why.Some? {
      return Err(why.value);
    }
    var scan := TokenScan(raw, scanner.tokens);
    ghost var spans := Lex(u, text, 0).spans;
    SignificantWithin(text, spans);
    StatementBytes(text, spans);
    ghost var sig := Significant(spans);
    var significant := SignificantTokens(scan.tokens);
    var one := OneStatement(text, sig, scan, significant);
    if !one {
      return Err(MultiStatement);
    }
    var none := NoExport(text, sig, scan, significant);
    if !none {
      return Err(IntoOutfile);
    }
    if StatementTokens(scan) == [] {
      return Err(Empty);
    }
    return Ok(scan);
  }
}
