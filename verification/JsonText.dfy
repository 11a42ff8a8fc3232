/**
 Strings of the JSON printer and parser of src/cJSON.c: what print_string_ptr writes, what
 parse_string and utf16_literal_to_utf8 read, and that the one undoes the other.

 Text is a sequence of bytes.  A string value is a C string: it ends before its first NUL.
 */
module JsonText {

  import opened Basics

  const QUOTE: Byte := 0x22
  const BACKSLASH: Byte := 0x5c
  const SLASH: Byte := 0x2f
  const NUL: Byte := 0
  const BS: Byte := 8
  const TAB: Byte := 9
  const FF: Byte := 12
  // The letters of the escapes \b \f \n \r \t \u.
  const LOWER_B: Byte := 0x62
  const LOWER_F: Byte := 0x66
  const LOWER_N: Byte := 0x6e
  const LOWER_R: Byte := 0x72
  const LOWER_T: Byte := 0x74
  const LOWER_U: Byte := 0x75

  predicate NulFree(s: Bytes) { NUL !in s }

  /** The C string at the start of a buffer. */
  function UpToNul(s: Bytes): (r: Bytes)
    ensures NulFree(r) && |r| <= |s| && r == s[..|r|] && (|r| < |s| ==> s[|r|] == NUL)
  {
    if s == [] || s[0] == NUL then [] else [s[0]] + UpToNul(s[1..])
  }

  lemma {:induction false} UpToNulId(s: Bytes)
    requires NulFree(s)
    ensures UpToNul(s) == s
  {
    if s != [] { UpToNulId(s[1..]); }
  }

  // ----- hexadecimal digits -----

  function HexDigit(b: Byte): (r: Option<nat>)
    ensures r.Some? ==> r.value < 16
  {
    if 0x30 <= b <= 0x39 then Some(b - 0x30)
    else if 0x41 <= b <= 0x46 then Some(10 + b - 0x41)
    else if 0x61 <= b <= 0x66 then Some(10 + b - 0x61)
    else None
  }

  /** The value of four digits; 0 unless all four are digits. */
  function Hex4(s: Bytes, i: nat): (h: nat)
    requires i + 4 <= |s|
    ensures h < 0x10000
  {
    match (HexDigit(s[i]), HexDigit(s[i + 1]), HexDigit(s[i + 2]), HexDigit(s[i + 3]))
    case (Some(a), Some(b), Some(c), Some(d)) => 4096 * a + 256 * b + 16 * c + d
    case _ => 0
  }

  // ----- UTF-8 (section 3 of RFC 3629) -----

  function Utf8Length(cp: nat): nat {
    if cp < 0x80 then 1 else if cp < 0x800 then 2 else if cp < 0x10000 then 3 else 4
  }

  /** The encoding of a code point. */
  function Utf8(cp: nat): (r: Bytes)
    requires cp <= 0x10ffff
    ensures |r| == Utf8Length(cp)
  {
    if cp < 0x80 then [cp]
    else if cp < 0x800 then [0xc0 + cp / 64, 0x80 + cp % 64]
    else if cp < 0x10000 then [0xe0 + cp / 4096, 0x80 + cp / 64 % 64, 0x80 + cp % 64]
    else [0xf0 + cp / 262144, 0x80 + cp / 4096 % 64, 0x80 + cp / 64 % 64, 0x80 + cp % 64]
  }

  predicate Tail(b: Byte) { 0x80 <= b <= 0xbf }

  /** The grammar of section 4 of RFC 3629, which leaves out overlong forms and surrogates. */
  predicate WellFormed(s: Bytes) {
    match |s|
    case 1 => s[0] <= 0x7f
    case 2 => 0xc2 <= s[0] <= 0xdf && Tail(s[1])
    case 3 =>
      && Tail(s[2])
      && ((s[0] == 0xe0 && 0xa0 <= s[1] <= 0xbf) || (0xe1 <= s[0] <= 0xec && Tail(s[1]))
          || (s[0] == 0xed && 0x80 <= s[1] <= 0x9f) || (0xee <= s[0] <= 0xef && Tail(s[1])))
    case 4 =>
      && Tail(s[2]) && Tail(s[3])
      && ((s[0] == 0xf0 && 0x90 <= s[1] <= 0xbf) || (0xf1 <= s[0] <= 0xf3 && Tail(s[1]))
        || (s[0] == 0xf4 && 0x80 <= s[1] <= 0x8f))
    case _ => false
  }

  /** The code point that a well-formed sequence stands for. */
  function Scalar(s: Bytes): int
    requires WellFormed(s)
  {
    if |s| == 1 then s[0]
    else if |s| == 2 then Join(s[0] - 0xc0, s[1])
    else if |s| == 3 then Join(Join(s[0] - 0xe0, s[1]), s[2])
    else Join(Join(Join(s[0] - 0xf0, s[1]), s[2]), s[3])
  }

  /** Six more bits. */
  function Join(high: int, tail: Byte): int { high * 64 + (tail - 0x80) }

  predicate Surrogate(u: nat) { 0xd800 <= u <= 0xdfff }

  /** The encoder is the inverse of the decoder, and produces nothing ill-formed. */
  lemma Utf8Encodes(cp: nat)
    requires cp <= 0x10ffff && !Surrogate(cp)
    ensures WellFormed(Utf8(cp)) && Scalar(Utf8(cp)) == cp
  {
    var s := Utf8(cp);
    var a, b, c := cp / 64, cp / 4096, cp / 262144;
    assert cp == 64 * a + cp % 64;
    assert a == 64 * b + a % 64;
    assert b == 64 * c + b % 64;
  }

  lemma JoinSplits(high: int, tail: Byte)
    requires high >= 0 && Tail(tail)
    ensures Join(high, tail) / 64 == high && 0x80 + Join(high, tail) % 64 == tail
  {
  }

  lemma DivTwice(cp: nat)
    ensures cp / 4096 == cp / 64 / 64 && cp / 262144 == cp / 64 / 64 / 64
  {
  }

  lemma Utf8Unique(s: Bytes)
    requires WellFormed(s)
    ensures 0 <= Scalar(s) <= 0x10ffff && !Surrogate(Scalar(s)) && Utf8(Scalar(s)) == s
  {
    if |s| == 2 {
      JoinSplits(s[0] - 0xc0, s[1]);
    } else if |s| == 3 {
      Utf8UniqueThree(s);
    } else if |s| == 4 {
      Utf8UniqueFour(s);
    }
  }

  lemma Utf8UniqueThree(s: Bytes)
    requires WellFormed(s) && |s| == 3
    ensures 0 <= Scalar(s) <= 0x10ffff && !Surrogate(Scalar(s)) && Utf8(Scalar(s)) == s
  {
    var high := Join(s[0] - 0xe0, s[1]);
    JoinSplits(s[0] - 0xe0, s[1]);
    JoinSplits(high, s[2]);
    DivTwice(Scalar(s));
  }

  lemma Utf8UniqueFour(s: Bytes)
    requires WellFormed(s) && |s| == 4
    ensures 0 <= Scalar(s) <= 0x10ffff && !Surrogate(Scalar(s)) && Utf8(Scalar(s)) == s
  {
    var high := Join(s[0] - 0xf0, s[1]);
    var mid := Join(high, s[2]);
    JoinSplits(s[0] - 0xf0, s[1]);
    JoinSplits(high, s[2]);
    JoinSplits(mid, s[3]);
    DivTwice(Scalar(s));
  }

  // ----- UTF-16 literals (section 2.2 of RFC 2781) -----

  /** The code point of a surrogate pair. */
  function PairScalar(hi: nat, lo: nat): nat
    requires 0xd800 <= hi <= 0xdbff && 0xdc00 <= lo <= 0xdfff
  {
    0x10000 + (hi - 0xd800) * 0x400 + (lo - 0xdc00)
  }

  /** A literal of one or two units: how many bytes of text it takes and its code point. */
  datatype Literal = Literal(length: nat, scalar: nat)

  function ReadLiteral(s: Bytes, i: nat, end: nat): (r: Option<Literal>)
    requires i <= end <= |s|
    ensures r.Some? ==> i + r.value.length <= end && r.value.length in {6, 12} && r.value.scalar <= 0x10ffff
    ensures r.Some? && r.value.length == 6 ==> r.value.scalar < 0x10000
  {
    if end - i < 6 then None
    else
      var first := Hex4(s, i + 2);
      if 0xdc00 <= first <= 0xdfff then None
      else if 0xd800 <= first <= 0xdbff then
        if end - (i + 6) < 6 || s[i + 6] != BACKSLASH || s[i + 7] != LOWER_U then None
        else
          var second := Hex4(s, i + 8);
          if second < 0xdc00 || second > 0xdfff then None else Some(Literal(12, PairScalar(first, second)))
      else Some(Literal(6, first))
  }

  // ----- reading a string -----

  /** The closing quote of a string whose text starts at i. */
  function StringEnd(s: Bytes, i: nat): (r: Option<nat>)
    requires i <= |s|
    ensures r.Some? ==> i <= r.value < |s| && s[r.value] == QUOTE
    decreases |s| - i
  {
    if i == |s| then None
    else if s[i] == QUOTE then Some(i)
    else if s[i] == BACKSLASH then (if i + 1 >= |s| then None else StringEnd(s, i + 2))
    else StringEnd(s, i + 1)
  }

  /** The byte that a two-byte escape stands for. */
  function Escaped(b: Byte): Option<Byte> {
    if b == LOWER_B then Some(BS)
    else if b == LOWER_F then Some(FF)
    else if b == LOWER_N then Some(LF)
    else if b == LOWER_R then Some(CR)
    else if b == LOWER_T then Some(TAB)
    else if b == QUOTE || b == BACKSLASH || b == SLASH then Some(b)
    else None
  }

  /** The bytes that the text from i to its end stands for.  A misaligned escape may use the
      closing quote itself and step over it. */
  function Unescape(s: Bytes, i: nat, end: nat): Option<Bytes>
    requires end < |s|
    decreases end - i
  {
    if i >= end then Some([])
    else if s[i] != BACKSLASH then Prepend([s[i]], Unescape(s, i + 1, end))
    else if s[i + 1] == LOWER_U then
      match ReadLiteral(s, i, end)
      case None => None
      case Some(lit) => Prepend(Utf8(lit.scalar), Unescape(s, i + lit.length, end))
    else
      match Escaped(s[i + 1])
      case None => None
      case Some(b) => Prepend([b], Unescape(s, i + 2, end))
  }

  function Prepend(x: Bytes, rest: Option<Bytes>): Option<Bytes> {
    match rest
    case None => None
    case Some(y) => Some(x + y)
  }

  /** A string literal at offset i: its bytes and the offset behind it. */
  function ReadString(s: Bytes, i: nat): (r: Option<(Bytes, nat)>)
    requires i < |s|
    ensures r.Some? ==> i + 1 < r.value.1 <= |s| && s[r.value.1 - 1] == QUOTE
  {
    if s[i] != QUOTE then None
    else
      match StringEnd(s, i + 1)
      case None => None
      case Some(end) =>
        match Unescape(s, i + 1, end)
        case None => None
        case Some(bytes) => Some((bytes, end + 1))
  }

  // ----- writing a string -----

  function HexChar(d: nat): Byte
    requires d < 16
  {
    if d < 10 then 0x30 + d else 0x61 + d - 10
  }

  /** Digits are written in lower case. */
  lemma HexCharIs(d: nat)
    requires d < 16
    ensures HexChar(d)
      == [0x30, 0x31, 0x32, 0x33, 0x34, 0x35, 0x36, 0x37, 0x38, 0x39, 0x61, 0x62, 0x63, 0x64, 0x65, 0x66][d]
  {
  }

  function Escape(b: Byte): (r: Bytes)
    ensures |r| in {1, 2, 6}
  {
    if b == QUOTE || b == BACKSLASH then [BACKSLASH, b]
    else if b == BS then [BACKSLASH, LOWER_B]
    else if b == FF then [BACKSLASH, LOWER_F]
    else if b == LF then [BACKSLASH, LOWER_N]
    else if b == CR then [BACKSLASH, LOWER_R]
    else if b == TAB then [BACKSLASH, LOWER_T]
    else if b < 32 then [BACKSLASH, LOWER_U, 0x30, 0x30, HexChar(b / 16), HexChar(b % 16)]
    else [b]
  }

  function EscapeAll(v: Bytes): Bytes {
    if v == [] then [] else Escape(v[0]) + EscapeAll(v[1..])
  }

  function WriteString(v: Bytes): Bytes { [QUOTE] + EscapeAll(v) + [QUOTE] }

  // ----- pieces of a buffer -----

  /** t occurs in s at offset i. */
  predicate At(s: Bytes, i: nat, t: Bytes) { i + |t| <= |s| && s[i..i + |t|] == t }

  lemma AtSplit(s: Bytes, i: nat, t: Bytes, u: Bytes)
    requires At(s, i, t + u)
    ensures At(s, i, t) && At(s, i + |t|, u)
  {
    assert s[i..i + |t|] == s[i..i + |t + u|][..|t|];
    assert s[i + |t|..i + |t| + |u|] == s[i..i + |t + u|][|t|..];
  }

  lemma AtIndex(s: Bytes, i: nat, t: Bytes)
    requires At(s, i, t)
    ensures forall k :: 0 <= k < |t| ==> s[i + k] == t[k]
  {
    forall k | 0 <= k < |t| ensures s[i + k] == t[k] {
      assert s[i..i + |t|][k] == s[i + k];
    }
  }

  /** Written strings contain no byte below a space, in particular no NUL. */
  lemma {:induction false} EscapeAllPrintable(v: Bytes)
    ensures forall k :: 0 <= k < |EscapeAll(v)| ==> EscapeAll(v)[k] >= 32
  {
    if v != [] { EscapeAllPrintable(v[1..]); }
  }
}
