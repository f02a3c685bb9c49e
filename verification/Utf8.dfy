/**
 The UTF-8 encoding of section 3 of RFC 3629, as Python's strict `str.encode` and
 `bytes.decode("utf-8")` apply it. SQL reaches the guard as bytes and every token is
 a byte range, so the model keeps both sides and the exact inverse between them.
 */
module Utf8 {
  import opened Wrappers

  type byte = x: int | 0 <= x < 256

  /** The encoded length of one Unicode scalar value. */
  function Width(c: char): (n: nat)
    ensures 1 <= n <= 4
    ensures n == 1 <==> c as int < 0x80
  {
    var v := c as int;
    if v < 0x80 then 1 else if v < 0x800 then 2 else if v < 0x10000 then 3 else 4
  }

  function EncodeChar(c: char): (b: seq<byte>)
    ensures |b| == Width(c)
  {
    var v := c as int;
    if v < 0x80 then [v]
    else if v < 0x800 then [0xC0 + v / 64, 0x80 + v % 64]
    else if v < 0x10000 then [0xE0 + v / 64 / 64, 0x80 + v / 64 % 64, 0x80 + v % 64]
    else [0xF0 + v / 64 / 64 / 64, 0x80 + v / 64 / 64 % 64, 0x80 + v / 64 % 64, 0x80 + v % 64]
  }

  /** Six bits in a further byte. */
  predicate Further(b: int, bits: int) { 0x80 <= b < 0xC0 && bits == b - 0x80 }

  /** The number of bytes by value, a lead byte that tells this number, and six bits in each further byte. */
  lemma EncodeCharIs(c: char)
    ensures c as int <= 0x7F ==> EncodeChar(c) == [c as int]
    ensures 0x80 <= c as int <= 0x7FF ==>
              var v, b := c as int, EncodeChar(c);
              |b| == 2 && 0xC0 <= b[0] < 0xE0 && Further(b[1], v - (b[0] as int - 0xC0) * 64)
    ensures 0x800 <= c as int <= 0xFFFF ==>
              var v, b := c as int, EncodeChar(c);
              && |b| == 3 && 0xE0 <= b[0] < 0xF0
              && exists x, y :: Further(b[1], x) && Further(b[2], y) && v == (b[0] as int - 0xE0) * 4096 + x * 64 + y
    ensures 0x10000 <= c as int ==>
              var v, b := c as int, EncodeChar(c);
              && |b| == 4 && 0xF0 <= b[0] < 0xF8
              && exists x, y, z :: Further(b[1], x) && Further(b[2], y) && Further(b[3], z)
                                   && v == (b[0] as int - 0xF0) * 262144 + x * 4096 + y * 64 + z
  {
    var v, b := c as int, EncodeChar(c);
    if 0x800 <= v <= 0xFFFF {
      assert Further(b[1], v / 64 % 64) && Further(b[2], v % 64);
    } else if 0x10000 <= v {
      assert Further(b[1], v / 64 / 64 % 64) && Further(b[2], v / 64 % 64) && Further(b[3], v % 64);
    }
  }

  function Encode(s: string): (b: seq<byte>)
    ensures |s| <= |b|
  {
    if s == [] then [] else EncodeChar(s[0]) + Encode(s[1..])
  }

  predicate Continuation(b: byte) { 0x80 <= b < 0xC0 }

  /** The scalar value at the front of `b` and its length, or None where the bytes are
      truncated, not in shortest form, a surrogate, or above U+10FFFF. */
  function DecodeChar(b: seq<byte>): (r: Option<(char, nat)>)
    requires b != []
    ensures r.Some? ==> 1 <= r.value.1 <= |b|
  {
    if b[0] < 0x80 then Some((b[0] as char, 1))
    else if 0xC0 <= b[0] < 0xE0 && |b| >= 2 && Continuation(b[1]) then
      Scalar(Join(b[0] - 0xC0, b[1]), 0x80, 2)
    else if 0xE0 <= b[0] < 0xF0 && |b| >= 3 && Continuation(b[1]) && Continuation(b[2]) then
      Scalar(Join(Join(b[0] - 0xE0, b[1]), b[2]), 0x800, 3)
    else if 0xF0 <= b[0] < 0xF8 && |b| >= 4
            && Continuation(b[1]) && Continuation(b[2]) && Continuation(b[3]) then
      Scalar(Join(Join(Join(b[0] - 0xF0, b[1]), b[2]), b[3]), 0x10000, 4)
    else None
  }

  /** Appends the six payload bits of a continuation byte. */
  function Join(high: int, low: byte): int { high * 64 + (low - 0x80) }

  lemma JoinSplits(high: int, low: byte)
    requires Continuation(low)
    ensures Join(high, low) / 64 == high && Join(high, low) % 64 == low - 0x80
  {
  }

  lemma SplitJoins(v: nat)
    ensures Join(v / 64, 0x80 + v % 64) == v
  {
  }

  function Scalar(v: int, least: int, width: nat): (r: Option<(char, nat)>)
    ensures r.Some? ==> r.value.1 == width && r.value.0 as int == v >= least
  {
    if least <= v && (0 <= v < 0xD800 || 0xE000 <= v < 0x11_0000) then Some((v as char, width)) else None
  }

  function Decode(b: seq<byte>): (r: Option<string>)
  {
    if b == [] then Some([])
    else match DecodeChar(b)
      case None => None
      case Some(front) =>
        match Decode(b[front.1..])
        case None => None
        case Some(rest) => Some([front.0] + rest)
  }

  lemma DecodeEncodedChar(c: char, rest: seq<byte>)
    ensures DecodeChar(EncodeChar(c) + rest) == Some((c, Width(c)))
  {
    var v := c as int;
    SplitJoins(v);
    SplitJoins(v / 64);
    SplitJoins(v / 64 / 64);
  }

  lemma EncodeDecodedChar(b: seq<byte>)
    requires b != [] && DecodeChar(b).Some?
    ensures Width(DecodeChar(b).value.0) == DecodeChar(b).value.1
    ensures EncodeChar(DecodeChar(b).value.0) == b[..DecodeChar(b).value.1]
  {
    var n := DecodeChar(b).value.1;
    if n == 2 {
      JoinSplits(b[0] - 0xC0, b[1]);
    } else if n == 3 {
      JoinSplits(b[0] - 0xE0, b[1]);
      JoinSplits(Join(b[0] - 0xE0, b[1]), b[2]);
    } else if n == 4 {
      JoinSplits(b[0] - 0xF0, b[1]);
      JoinSplits(Join(b[0] - 0xF0, b[1]), b[2]);
      JoinSplits(Join(Join(b[0] - 0xF0, b[1]), b[2]), b[3]);
    }
  }

  /** Decoding inverts encoding. */
  lemma {:induction false} DecodeEncode(s: string)
    ensures Decode(Encode(s)) == Some(s)
  {
    if s != [] {
      DecodeEncodedChar(s[0], Encode(s[1..]));
      assert Encode(s)[Width(s[0])..] == Encode(s[1..]);
      DecodeEncode(s[1..]);
      assert s == [s[0]] + s[1..];
    }
  }

  /** Only encodings decode: a byte string is accepted exactly when it encodes its text. */
  lemma {:induction false} EncodeDecode(b: seq<byte>)
    requires Decode(b).Some?
    ensures Encode(Decode(b).value) == b
  {
    if b != [] {
      EncodeDecodedChar(b);
      var n := DecodeChar(b).value.1;
      EncodeDecode(b[n..]);
      assert b == b[..n] + b[n..];
      assert Decode(b).value[1..] == Decode(b[n..]).value;
    }
  }

  /** The byte offset of character position `i` of `s`. */
  function Offset(s: string, i: nat): nat
    requires i <= |s|
  {
    |Encode(s[..i])|
  }

  lemma Associative(a: seq<byte>, b: seq<byte>, c: seq<byte>)
    ensures a + b + c == a + (b + c)
  {
  }

  lemma {:induction false} EncodeAppend(s: string, t: string)
    ensures Encode(s + t) == Encode(s) + Encode(t)
  {
    if s == [] {
      assert s + t == t;
      assert Encode(s) + Encode(t) == Encode(t);
    } else {
      EncodeAppend(s[1..], t);
      var u := s + t;
      assert u[0] == s[0] && u[1..] == s[1..] + t;
      Associative(EncodeChar(s[0]), Encode(s[1..]), Encode(t));
    }
  }

  lemma OffsetStep(s: string, i: nat)
    requires i < |s|
    ensures Offset(s, i + 1) == Offset(s, i) + Width(s[i])
  {
    EncodeAppend(s[..i], [s[i]]);
    assert s[..i + 1] == s[..i] + [s[i]];
    assert Encode([s[i]]) == EncodeChar(s[i]) + Encode([]);
  }

  /** A range between two character boundaries is the encoding of that range of characters. */
  lemma EncodeRange(s: string, i: nat, j: nat)
    requires i <= j <= |s|
    ensures Offset(s, i) <= Offset(s, j) <= |Encode(s)|
    ensures Offset(s, j) - Offset(s, i) == |Encode(s[i..j])| >= j - i
    ensures Encode(s)[Offset(s, i)..Offset(s, j)] == Encode(s[i..j])
  {
    EncodeAppend(s[..i], s[i..j]);
    EncodeAppend(s[..j], s[j..]);
    assert s[..j] == s[..i] + s[i..j];
    assert s == s[..j] + s[j..];
  }

  /** Offsets inside a range are offsets of the whole, shifted by where the range starts. */
  lemma OffsetInRange(s: string, a: nat, b: nat, i: nat)
    requires a <= i <= b <= |s|
    ensures Offset(s[a..b], i - a) == Offset(s, i) - Offset(s, a)
  {
    EncodeRange(s, a, i);
    assert s[a..b][..i - a] == s[a..i];
  }
}
