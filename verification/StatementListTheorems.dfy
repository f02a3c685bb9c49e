/**
 The shipped list passes its import-time checks and is unambiguous: whatever the tokens, at
 most one entry matches all of them, and all its matches extract the same objects.
 */
module StatementListTheorems {
  import opened Wrappers
  import opened ReadonlyStatements
  import opened StatementTargets
  import opened StatementList

  // ---- reading a derivation from the left ----

  /** A leading keyword run is there, and the rest derives from behind it. */
  lemma Keywords(es: seq<Element>, words: seq<string>, src: Input, p: nat, q: nat, caps: Captures)
    requires es != [] && es[0] == Kw(words) && DerivesAll(es, src, p, q, caps)
    ensures forall i :: 0 <= i < |words| ==> src.WordAt(p + i) == Some(words[i])
    ensures DerivesAll(es[1..], src, p + |words|, q, caps)
  {
  }

  /** At the end of the pattern the input ends. */
  lemma Done(src: Input, p: nat, q: nat, caps: Captures)
    requires DerivesAll([], src, p, q, caps)
    ensures p == q && caps == []
  {
  }

  /** The number of the entry that the leading words announce. */
  function Announced(src: Input): nat {
    var w0, w1, w2, w3 := src.WordAt(0), src.WordAt(1), src.WordAt(2), src.WordAt(3);
    if w0 == Some("DESC") || w0 == Some("DESCRIBE") then 30
    else if w0 == Some("EXPLAIN") then 19
    else if w0 == Some("ANALYZE") then 18
    else if w0 == Some("ADMIN") then if w3 == Some("STATUS") then 16 else 17
    else if w1 == Some("CREATE") then if w2 == Some("ROUTINE") then 29 else 0
    else if w1 == Some("TABLET") then if w2 == Some("FROM") then 3 else 4
    else if w1 == Some("TEMPORARY") || w1 == Some("PARTITIONS") then 2
    else if w1 == Some("FULL") || w1 == Some("FUNCTIONS") then 8
    else AnnouncedBySecond(w1)
  }

  function AnnouncedBySecond(w1: Option<string>): nat {
    if w1 == Some("MATERIALIZED") then 1
    else if w1 == Some("DATA") then 5
    else if w1 == Some("LOAD") then 6
    else if w1 == Some("ROUTINE") then 7
    else if w1 == Some("CATALOGS") then 9
    else if w1 == Some("FRONTENDS") then 10
    else if w1 == Some("BACKENDS") then 11
    else if w1 == Some("RESOURCE") then 12
    else if w1 == Some("PROC") then 13
    else if w1 == Some("PROFILELIST") then 14
    else if w1 == Some("ALTER") then 15
    else if w1 == Some("RUNNING") then 20
    else if w1 == Some("ANALYZE") then 21
    else if w1 == Some("STATS") then 22
    else if w1 == Some("DYNAMIC") then 23
    else if w1 == Some("DELETE") then 24
    else if w1 == Some("EXPORT") then 25
    else if w1 == Some("TRANSACTION") then 26
    else if w1 == Some("COMPUTE") then 27
    else 28
  }

  // ---- how an entry begins ----

  /** The beginning of a pattern: keywords, keywords behind an optional one, keywords and a number,
      or one of two keywords. */
  datatype Opening =
    | Words(words: seq<string>)
    | Optional(first: string, option: string, behind: string)
    | Number(words: seq<string>)
    | Either(first: string, second: string)

  const OPENINGS: seq<Opening> :=
    [Words(["SHOW", "CREATE", "MATERIALIZED", "VIEW"]), Words(["SHOW", "MATERIALIZED", "VIEWS"]),
     Optional("SHOW", "TEMPORARY", "PARTITIONS"), Words(["SHOW", "TABLET", "FROM"]), Number(["SHOW", "TABLET"]),
     Words(["SHOW", "DATA"]), Words(["SHOW", "LOAD"]), Words(["SHOW", "ROUTINE", "LOAD"]),
     Optional("SHOW", "FULL", "FUNCTIONS"), Words(["SHOW", "CATALOGS"]), Words(["SHOW", "FRONTENDS"]),
     Words(["SHOW", "BACKENDS"]), Words(["SHOW", "RESOURCE", "GROUPS"]), Words(["SHOW", "PROC"]),
     Words(["SHOW", "PROFILELIST"]), Words(["SHOW", "ALTER", "TABLE"]),
     Words(["ADMIN", "SHOW", "REPLICA", "STATUS", "FROM"]), Words(["ADMIN", "SHOW", "REPLICA", "DISTRIBUTION", "FROM"]),
     Words(["ANALYZE", "PROFILE", "FROM"]), Words(["EXPLAIN"]), Words(["SHOW", "RUNNING", "QUERIES"]),
     Words(["SHOW", "ANALYZE", "STATUS"]), Words(["SHOW", "STATS", "META"]),
     Words(["SHOW", "DYNAMIC", "PARTITION", "TABLES"]), Words(["SHOW", "DELETE"]), Words(["SHOW", "EXPORT"]),
     Words(["SHOW", "TRANSACTION"]), Words(["SHOW", "COMPUTE", "NODES"]), Words(["SHOW", "ROLES"]),
     Words(["SHOW", "CREATE", "ROUTINE", "LOAD"]), Either("DESC", "DESCRIBE")]

  predicate OpensWith(s: ReadonlyStatement, o: Opening) {
    match o
    case Words(words) => s.pattern != [] && s.pattern[0] == Kw(words)
    case Optional(first, option, behind) =>
      && |s.pattern| >= 3 && s.pattern[0] == Kw([first]) && s.pattern[1] == Opt([Kw([option])])
      && s.pattern[2].Kw? && s.pattern[2].words != [] && s.pattern[2].words[0] == behind
    case Number(words) => |s.pattern| >= 2 && s.pattern[0] == Kw(words) && s.pattern[1] == Int
    case Either(first, second) =>
      s.pattern != [] && s.pattern[0] == OneOf([Alternative([Kw([first])]), Alternative([Kw([second])])])
  }

  /** The beginning is there in the tokens. */
  predicate Heard(src: Input, o: Opening) {
    match o
    case Words(words) => WordsAt(src, 0, words)
    case Optional(first, option, behind) =>
      src.WordAt(0) == Some(first) && (src.WordAt(1) == Some(option) || src.WordAt(1) == Some(behind))
    case Number(words) => WordsAt(src, 0, words) && src.WordAt(|words|).Some? && Digits(src.WordAt(|words|).value)
    case Either(first, second) => src.WordAt(0) == Some(first) || src.WordAt(0) == Some(second)
  }

  predicate WordsAt(src: Input, p: nat, words: seq<string>) {
    forall i :: 0 <= i < |words| ==> src.WordAt(p + i) == Some(words[i])
  }

  lemma FirstWords(src: Input, p: nat, words: seq<string>)
    requires WordsAt(src, p, words)
    ensures |words| > 0 ==> src.WordAt(p) == Some(words[0])
    ensures |words| > 1 ==> src.WordAt(p + 1) == Some(words[1])
    ensures |words| > 2 ==> src.WordAt(p + 2) == Some(words[2])
    ensures |words| > 3 ==> src.WordAt(p + 3) == Some(words[3])
  {
  }

  lemma OptionalHeard(s: ReadonlyStatement, first: string, option: string, behind: string, src: Input, caps: Captures)
    requires OpensWith(s, Optional(first, option, behind)) && DerivesAll(s.pattern, src, 0, |src.tokens|, caps)
    ensures Heard(src, Optional(first, option, behind))
  {
    var q := |src.tokens|;
    Keywords(s.pattern, [first], src, 0, q, caps);
    FirstWords(src, 0, [first]);
    var m, front, back := Split(s.pattern[1..], src, 1, q, caps);
    if m == 1 && front == [] {
      Keywords(s.pattern[1..][1..], s.pattern[2].words, src, m, q, back);
      FirstWords(src, 1, s.pattern[2].words);
    } else {
      Keywords([Kw([option])], [option], src, 1, m, front);
      FirstWords(src, 1, [option]);
    }
  }

  lemma NumberHeard(s: ReadonlyStatement, words: seq<string>, src: Input, caps: Captures)
    requires OpensWith(s, Number(words)) && DerivesAll(s.pattern, src, 0, |src.tokens|, caps)
    ensures Heard(src, Number(words))
  {
    Keywords(s.pattern, words, src, 0, |src.tokens|, caps);
    var m, front, back := Split(s.pattern[1..], src, |words|, |src.tokens|, caps);
  }

  lemma EitherHeard(s: ReadonlyStatement, first: string, second: string, src: Input, caps: Captures)
    requires OpensWith(s, Either(first, second)) && DerivesAll(s.pattern, src, 0, |src.tokens|, caps)
    ensures Heard(src, Either(first, second))
  {
    var m, front, back := Split(s.pattern, src, 0, |src.tokens|, caps);
    var alternatives := s.pattern[0].alternatives;
    var i :| 0 <= i < |alternatives| && DerivesAll(alternatives[i].elements, src, 0, m, front);
    var word := if i == 0 then first else second;
    Keywords(alternatives[i].elements, [word], src, 0, m, front);
    FirstWords(src, 0, [word]);
  }

  /** A match begins as its pattern does. */
  lemma OpeningHeard(s: ReadonlyStatement, o: Opening, src: Input, caps: Captures)
    requires OpensWith(s, o) && DerivesAll(s.pattern, src, 0, |src.tokens|, caps)
    ensures Heard(src, o)
  {
    match o
    case Words(words) => Keywords(s.pattern, words, src, 0, |src.tokens|, caps);
    case Optional(first, option, behind) => OptionalHeard(s, first, option, behind, src, caps);
    case Number(words) => NumberHeard(s, words, src, caps);
    case Either(first, second) => EitherHeard(s, first, second, src, caps);
  }

  // ---- the leading words decide the entry ----

  lemma ShippedLength()
    ensures |READONLY_STATEMENTS| == 31 && |OPENINGS| == 31
  {
  }

  lemma ShippedA(i: nat)
    requires 0 <= i < 8
    ensures i < |READONLY_STATEMENTS| && i < |OPENINGS| && OpensWith(READONLY_STATEMENTS[i], OPENINGS[i])
  {
  }

  lemma ShippedB(i: nat)
    requires 8 <= i < 16
    ensures i < |READONLY_STATEMENTS| && i < |OPENINGS| && OpensWith(READONLY_STATEMENTS[i], OPENINGS[i])
  {
  }

  lemma ShippedC(i: nat)
    requires 16 <= i < 24
    ensures i < |READONLY_STATEMENTS| && i < |OPENINGS| && OpensWith(READONLY_STATEMENTS[i], OPENINGS[i])
  {
  }

  lemma ShippedD(i: nat)
    requires 24 <= i < 31
    ensures i < |READONLY_STATEMENTS| && i < |OPENINGS| && OpensWith(READONLY_STATEMENTS[i], OPENINGS[i])
  {
  }

  lemma ShippedOpening(i: nat)
    requires i < 31
    ensures i < |READONLY_STATEMENTS| && i < |OPENINGS| && OpensWith(READONLY_STATEMENTS[i], OPENINGS[i])
  {
    if i < 8 {
      ShippedA(i);
    } else if i < 16 {
      ShippedB(i);
    } else if i < 24 {
      ShippedC(i);
    } else {
      ShippedD(i);
    }
  }

  lemma AnnouncesA(i: nat, src: Input)
    requires 0 <= i < 8 && Heard(src, OPENINGS[i])
    ensures Announced(src) == i
  {
    match OPENINGS[i]
    case Words(words) => FirstWords(src, 0, words);
    case Number(words) =>
      FirstWords(src, 0, words);
      assert "FROM"[0] == 'F' && !Digits("FROM");
    case _ =>
  }

  lemma AnnouncesB(i: nat, src: Input)
    requires 8 <= i < 16 && Heard(src, OPENINGS[i])
    ensures Announced(src) == i
  {
    match OPENINGS[i]
    case Words(words) => FirstWords(src, 0, words);
    case _ =>
  }

  lemma AnnouncesC(i: nat, src: Input)
    requires 16 <= i < 24 && Heard(src, OPENINGS[i])
    ensures Announced(src) == i
  {
    match OPENINGS[i]
    case Words(words) => FirstWords(src, 0, words);
    case _ =>
  }

  lemma AnnouncesD(i: nat, src: Input)
    requires 24 <= i < 31 && Heard(src, OPENINGS[i])
    ensures Announced(src) == i
  {
    match OPENINGS[i]
    case Words(words) => FirstWords(src, 0, words);
    case _ =>
  }

  /** Whatever entry matches, the leading words announced it: at most one entry matches. */
  lemma EntryAnnounced(i: nat, src: Input, caps: Captures)
    requires MatchesBy(READONLY_STATEMENTS, i, src, caps)
    ensures Announced(src) == i
  {
    ShippedLength();
    ShippedOpening(i);
    OpeningHeard(READONLY_STATEMENTS[i], OPENINGS[i], src, caps);
    if i < 8 {
      AnnouncesA(i, src);
    } else if i < 16 {
      AnnouncesB(i, src);
    } else if i < 24 {
      AnnouncesC(i, src);
    } else {
      AnnouncesD(i, src);
    }
  }
}
