/**
 The quote-aware scan of one SQL text: a single left-to-right pass that cuts the text into
 words, quoted identifiers, strings, symbols and comments, then refuses several statements,
 file exports and empty input. `Lex` and `ScanText` say on character positions what the
 pass computes; `Scanner` and `ScanSql` are the pass itself, in place and on bytes.
 */
module SqlTokens {
  import opened Wrappers
  import opened Utf8

  const SQL_MAX_BYTES := 65_536

  /** What the scan and the guard ask of the Unicode database. Categories Cc, Zl and Zp are
      fixed by the standard and are computed; Cf and the case maps stay arbitrary. */
  datatype Unicode = Unicode(format: char -> bool, upper: string -> string, lower: string -> string)

  datatype TokenKind = Word | QuotedIdentifier | StringLiteral | Symbol | Comment

  datatype Reason =
    | Empty
    | TooLong
    | InvalidUtf8
    | Bom
    | ControlCharacter
    | AmbiguousPunctuation
    | HintComment
    | MultiStatement
    | IntoOutfile
    | Unterminated

  /** A token in the bytes of the text, as the half-open range the scan records. */
  datatype SqlToken = SqlToken(kind: TokenKind, startByte: nat, endByte: nat)

  /** The same token on character positions. */
  datatype Span = Span(kind: TokenKind, start: nat, end: nat)

  datatype TokenScan = TokenScan(raw: seq<byte>, tokens: seq<SqlToken>)

  // ---- characters ----

  const BOM: char := '\U{FEFF}'

  predicate Ascii(c: char) { c as int < 0x80 }

  predicate Whitespace(c: char) { c == ' ' || c == '\t' || c == '\r' || c == '\n' }

  predicate LineBreak(c: char) { c == '\r' || c == '\n' }

  predicate WordChar(c: char) {
    'a' <= c <= 'z' || 'A' <= c <= 'Z' || '0' <= c <= '9' || c == '_' || c == '$'
  }

  predicate Control(c: char) { c as int < 0x20 || 0x7F <= c as int < 0xA0 }

  predicate Rejected(u: Unicode, c: char) {
    || (Control(c) && !Whitespace(c))
    || c as int == 0x2028 || c as int == 0x2029
    || (!Ascii(c) && u.format(c))
  }

  function CheckChar(u: Unicode, c: char): Option<Reason> {
    if c == BOM then Some(Bom) else if Rejected(u, c) then Some(ControlCharacter) else None
  }

  predicate Permitted(u: Unicode, c: char) { CheckChar(u, c) == None }

  // ---- one token ----

  /** Where a token ends, or why the scan stops inside it. */
  datatype End = At(pos: nat) | Bad(reason: Reason)

  predicate Is(s: string, p: nat, c: char) { p < |s| && s[p] == c }

  function WordEnd(s: string, p: nat): (e: nat)
    requires p <= |s|
    ensures p <= e <= |s|
    decreases |s| - p
  {
    if p < |s| && WordChar(s[p]) then WordEnd(s, p + 1) else p
  }

  function LineEnd(u: Unicode, s: string, p: nat): (e: End)
    requires p <= |s|
    ensures e.At? ==> p <= e.pos <= |s|
    ensures e.At? && p < |s| && !LineBreak(s[p]) ==> p < e.pos
    decreases |s| - p
  {
    if p == |s| || LineBreak(s[p]) then At(p)
    else match CheckChar(u, s[p])
      case Some(why) => Bad(why)
      case None => LineEnd(u, s, p + 1)
  }

  function BlockEnd(u: Unicode, s: string, p: nat): (e: End)
    requires p <= |s|
    ensures e.At? ==> p < e.pos <= |s|
    decreases |s| - p
  {
    if p == |s| then Bad(Unterminated)
    else if s[p] == '*' && Is(s, p + 1, '/') then At(p + 2)
    else match CheckChar(u, s[p])
      case Some(why) => Bad(why)
      case None => BlockEnd(u, s, p + 1)
  }

  /** Scans from just behind an opening quote. */
  function QuotedEnd(u: Unicode, s: string, p: nat, quote: char, backslash: bool): (e: End)
    requires p <= |s|
    ensures e.At? ==> p < e.pos <= |s|
    decreases |s| - p
  {
    if p == |s| then Bad(Unterminated)
    else match CheckChar(u, s[p])
      case Some(why) => Bad(why)
      case None =>
        if backslash && s[p] == '\\' then
          if p + 1 == |s| then Bad(Unterminated)
          else match CheckChar(u, s[p + 1])
            case Some(why) => Bad(why)
            case None => QuotedEnd(u, s, p + 2, quote, backslash)
        else if s[p] == quote then
          if Is(s, p + 1, quote) then QuotedEnd(u, s, p + 2, quote, backslash) else At(p + 1)
        else QuotedEnd(u, s, p + 1, quote, backslash)
  }

  function KindAt(s: string, p: nat): TokenKind
    requires p < |s|
  {
    var c := s[p];
    if (c == '-' && Is(s, p + 1, '-')) || c == '#' then Comment
    else if c == '/' && Is(s, p + 1, '*') then Comment
    else if c == '\'' || c == '"' then StringLiteral
    else if c == '`' then QuotedIdentifier
    else if WordChar(c) then Word
    else Symbol
  }

  function EndAt(u: Unicode, s: string, p: nat): (e: End)
    requires p < |s| && !Whitespace(s[p])
    ensures e.At? ==> p < e.pos <= |s|
  {
    var c := s[p];
    match KindAt(s, p)
    case Comment =>
      if c == '/' then
        if Is(s, p + 2, '+') || Is(s, p + 2, '!') then Bad(HintComment) else BlockEnd(u, s, p + 2)
      else LineEnd(u, s, p)
    case StringLiteral => QuotedEnd(u, s, p + 1, c, true)
    case QuotedIdentifier => QuotedEnd(u, s, p + 1, c, false)
    case Word => At(WordEnd(s, p + 1))
    case Symbol =>
      match CheckChar(u, c)
      case Some(why) => Bad(why)
      case None => if Ascii(c) then At(p + 1) else Bad(AmbiguousPunctuation)
  }

  // ---- the whole text ----

  datatype Lexed = Spans(spans: seq<Span>) | Refused(reason: Reason)

  predicate Within(s: string, spans: seq<Span>) {
    forall i :: 0 <= i < |spans| ==> spans[i].start < spans[i].end <= |s|
  }

  function Lex(u: Unicode, s: string, p: nat): (r: Lexed)
    requires p <= |s|
    ensures r.Spans? ==> Within(s, r.spans)
    decreases |s| - p
  {
    if p == |s| then Spans([])
    else if Whitespace(s[p]) then Lex(u, s, p + 1)
    else match EndAt(u, s, p)
      case Bad(why) => Refused(why)
      case At(e) => Prepend([Span(KindAt(s, p), p, e)], Lex(u, s, e))
  }

  function Prepend(front: seq<Span>, rest: Lexed): Lexed {
    match rest
    case Refused(_) => rest
    case Spans(spans) => Spans(front + spans)
  }

  function Significant(spans: seq<Span>): (r: seq<Span>)
    ensures forall i :: 0 <= i < |r| ==> r[i] in spans && r[i].kind != Comment
  {
    if spans == [] then []
    else (if spans[0].kind == Comment then [] else [spans[0]]) + Significant(spans[1..])
  }

  predicate IsSemicolon(s: string, t: Span) {
    t.kind == Symbol && Is(s, t.start, ';')
  }

  function Upper(c: char): char {
    if 'a' <= c <= 'z' then (c as int - 32) as char else c
  }

  /** `str.upper` on a word, whose characters are all ASCII. */
  function UpperWord(s: string): string {
    seq(|s|, i requires 0 <= i < |s| => Upper(s[i]))
  }

  predicate WordIs(s: string, t: Span, upper: string) {
    t.kind == Word && t.start <= t.end <= |s| && UpperWord(s[t.start..t.end]) == upper
  }

  predicate IntoFile(s: string, t: Span, next: Span) {
    WordIs(s, t, "INTO") && (WordIs(s, next, "OUTFILE") || WordIs(s, next, "DUMPFILE"))
  }

  predicate SeveralStatements(s: string, sig: seq<Span>) {
    exists i :: 0 <= i < |sig| - 1 && IsSemicolon(s, sig[i])
  }

  predicate ExportsToFile(s: string, sig: seq<Span>) {
    exists i :: 0 <= i < |sig| - 1 && IntoFile(s, sig[i], sig[i + 1])
  }

  /** The tokens of the statement: no comments and no trailing `;`. */
  function Statement(s: string, sig: seq<Span>): (r: seq<Span>)
    ensures r <= sig
  {
    if sig != [] && IsSemicolon(s, sig[|sig| - 1]) then sig[..|sig| - 1] else sig
  }

  function Judge(s: string, sig: seq<Span>): Option<Reason> {
    if SeveralStatements(s, sig) then Some(MultiStatement)
    else if ExportsToFile(s, sig) then Some(IntoOutfile)
    else if Statement(s, sig) == [] then Some(Empty)
    else None
  }

  function ScanText(u: Unicode, s: string): Lexed {
    if BOM in s then Refused(Bom)
    else match Lex(u, s, 0)
      case Refused(why) => Refused(why)
      case Spans(spans) =>
        match Judge(s, Significant(spans))
        case Some(why) => Refused(why)
        case None => Spans(spans)
  }

  // ---- bytes ----

  function ToToken(s: string, t: Span): SqlToken
    requires t.start <= t.end <= |s|
  {
    SqlToken(t.kind, Offset(s, t.start), Offset(s, t.end))
  }

  function ToTokens(s: string, spans: seq<Span>): (r: seq<SqlToken>)
    requires Within(s, spans)
    ensures |r| == |spans|
    ensures forall i :: 0 <= i < |r| ==> r[i] == ToToken(s, spans[i])
  {
    if spans == [] then [] else [ToToken(s, spans[0])] + ToTokens(s, spans[1..])
  }

  /** The verdict on raw bytes. */
  function Scan(u: Unicode, raw: seq<byte>): Result<TokenScan, Reason> {
    if |raw| > SQL_MAX_BYTES then Err(TooLong)
    else match Decode(raw)
      case None => Err(InvalidUtf8)
      case Some(text) =>
        match ScanText(u, text)
        case Refused(why) => Err(why)
        case Spans(spans) =>
          WithinScan(u, text);
          Ok(TokenScan(raw, ToTokens(text, spans)))
  }

  /** `TokenScan._is_semicolon`, on the bytes. */
  predicate SemicolonToken(scan: TokenScan, t: SqlToken) {
    t.kind == Symbol && t.startByte < |scan.raw| && scan.raw[t.startByte] == 0x3B
  }

  function SignificantTokens(tokens: seq<SqlToken>): seq<SqlToken> {
    if tokens == [] then []
    else (if tokens[0].kind == Comment then [] else [tokens[0]]) + SignificantTokens(tokens[1..])
  }

  /** `TokenScan.statement_tokens`. */
  function StatementTokens(scan: TokenScan): seq<SqlToken> {
    var significant := SignificantTokens(scan.tokens);
    if significant != [] && SemicolonToken(scan, significant[|significant| - 1])
    then significant[..|significant| - 1] else significant
  }

  /** `raw[start:end].decode()`; the theorems show that it never fails on token boundaries. */
  function TextBetween(raw: seq<byte>, start: nat, end: nat): Option<string> {
    if start <= end <= |raw| then Decode(raw[start..end]) else None
  }

  lemma WithinScan(u: Unicode, s: string)
    ensures ScanText(u, s).Spans? ==> Lex(u, s, 0) == ScanText(u, s) && Within(s, ScanText(u, s).spans)
  {
  }
}
