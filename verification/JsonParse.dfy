/**
 The JSON parser of src/cJSON.c: a buffer with a moving offset, the output array of
 parse_string with its size estimate, and the recursive descent.  Memory for items and strings
 is always available here.
 */
module JsonParse {
  import opened Basics
  import opened JsonText
  import opened JsonTree

  /** The value of the first k digits at i. */
  function HexPrefix(s: Bytes, i: nat, k: nat): Option<nat>
    requires i + k <= |s|
  {
    if k == 0 then Some(0)
    else
      match HexPrefix(s, i, k - 1)
      case None => None
      case Some(v) => if HexDigit(s[i + k - 1]).Some? then Some(16 * v + HexDigit(s[i + k - 1]).value) else None
  }

  lemma HexPrefixWhole(s: Bytes, i: nat)
    requires i + 4 <= |s|
    ensures Hex4(s, i) == if HexPrefix(s, i, 4).Some? then HexPrefix(s, i, 4).value else 0
  {
    hide HexDigit;
    var a, b, c, d := HexDigit(s[i]), HexDigit(s[i + 1]), HexDigit(s[i + 2]), HexDigit(s[i + 3]);
    assert HexPrefix(s, i, 0) == Some(0);
    assert HexPrefix(s, i, 1) == if a.Some? then a else None;
    assert HexPrefix(s, i, 2) == if a.Some? && b.Some? then Some(16 * a.value + b.value) else None;
    assert HexPrefix(s, i, 3) == if a.Some? && b.Some? && c.Some? then Some(16 * (16 * a.value + b.value) + c.value)
      else None;
  }

  lemma {:induction false} HexPrefixFails(s: Bytes, i: nat, k: nat, n: nat)
    requires k <= n && i + n <= |s| && HexPrefix(s, i, k).None?
    ensures HexPrefix(s, i, n).None?
    decreases n
  {
    if k < n { HexPrefixFails(s, i, k, n - 1); }
  }

  /** parse_hex4. */
  method ParseHex4(s: Bytes, i: nat) returns (h: nat)
    requires i + 4 <= |s|
    ensures h == Hex4(s, i)
  {
    hide Hex4, HexDigit;
    h := 0;
    HexPrefixWhole(s, i);
    for k := 0 to 4
      invariant HexPrefix(s, i, k).Some?
      invariant h == if k == 4 then HexPrefix(s, i, k).value else 16 * HexPrefix(s, i, k).value
    {
      var digit := HexDigit(s[i + k]);
      if digit.None? {
        HexPrefixFails(s, i, k + 1, 4);
        return 0;
      }
      h := h + digit.value;
      if k < 3 { h := 16 * h; }
    }
  }

  lemma PairMasks(hi: nat, lo: nat)
    requires 0xd800 <= hi <= 0xdbff && 0xdc00 <= lo <= 0xdfff
    ensures 0x10000 + (hi % 0x400) * 0x400 + lo % 0x400 == PairScalar(hi, lo)
  {
    assert hi % 0x400 == hi - 0xd800;
    assert lo % 0x400 == lo - 0xdc00;
  }

  /** The literal at i, with the units that parse_hex4 gives. */
  method ReadUnits(s: Bytes, i: nat, end: nat) returns (length: nat, cp: nat)
    requires i <= end <= |s|
    ensures ReadLiteral(s, i, end) == if length == 0 then None else Some(Literal(length, cp))
  {
    hide Hex4, PairScalar;
    if end - i < 6 { return 0, 0; }
    var first := ParseHex4(s, i + 2);
    if 0xdc00 <= first <= 0xdfff { return 0, 0; }
    if 0xd800 <= first <= 0xdbff {
      if end - (i + 6) < 6 || s[i + 6] != BACKSLASH || s[i + 7] != LOWER_U { return 0, 0; }
      var second := ParseHex4(s, i + 8);
      if second < 0xdc00 || second > 0xdfff { return 0, 0; }
      PairMasks(first, second);
      return 12, 0x10000 + (first % 0x400) * 0x400 + second % 0x400;
    }
    return 6, first;
  }

  /** utf16_literal_to_utf8: the literal at i, encoded at position o of the output. */
  method Utf16LiteralToUtf8(s: Bytes, i: nat, end: nat, out: array<Byte>, o: nat) returns (length: nat, o': nat)
    requires i <= end <= |s|
    requires ReadLiteral(s, i, end).Some? ==> o + Utf8Length(ReadLiteral(s, i, end).value.scalar) <= out.Length
    modifies out
    ensures ReadLiteral(s, i, end).None? ==> length == 0
    ensures ReadLiteral(s, i, end).Some? ==>
      var lit := ReadLiteral(s, i, end).value;
      && length == lit.length && o' == o + Utf8Length(lit.scalar) <= out.Length
      && out[..o'] == old(out[..])[..o] + Utf8(lit.scalar)
  {
    hide ReadLiteral, Utf8;
    var cp;
    length, cp := ReadUnits(s, i, end);
    if length == 0 { return 0, o; }
    o' := Encode(cp, out, o);
  }

  /** The bytes behind the first are written from the last to the second. */
  method Encode(scalar: nat, out: array<Byte>, o: nat) returns (o': nat)
    requires scalar <= 0x10ffff && o + Utf8Length(scalar) <= out.Length
    modifies out
    ensures o' == o + Utf8Length(scalar) && out[..o'] == old(out[..])[..o] + Utf8(scalar)
  {
    hide Utf8, Shifted;
    var n := Utf8Length(scalar);
    var mark := if n == 1 then 0 else if n == 2 then 0xc0 else if n == 3 then 0xe0 else 0xf0;
    var cp, k := scalar, n - 1;
    ghost var bytes, before := Utf8(scalar), out[..o];
    EncodedBytes(scalar);
    ShiftStep(scalar, 0);
    while k > 0
      invariant 0 <= k < n && cp == Shifted(scalar, n - 1 - k)
      invariant out[..o] == before
      invariant forall l :: o + k < l < o + n ==> out[l] == bytes[l - o]
    {
      ShiftStep(scalar, n - 1 - k);
      assert bytes[k] == 0x80 + cp % 64;
      out[o + k] := 0x80 + cp % 64;
      cp := cp / 64;
      k := k - 1;
    }
    FirstByteFits(scalar);
    out[o] := mark + cp;
    o' := o + n;
    assert bytes[0] == mark + cp;
    forall l | 0 <= l < n ensures out[o..o'][l] == bytes[l] {
      assert out[o..o'][l] == out[o + l];
    }
    assert out[o..o'] == bytes;
    assert out[..o'] == out[..o] + out[o..o'];
  }

  function Shifted(cp: nat, n: nat): nat { if n == 0 then cp else Shifted(cp, n - 1) / 64 }

  lemma ShiftStep(cp: nat, n: nat)
    ensures Shifted(cp, 0) == cp && Shifted(cp, n + 1) == Shifted(cp, n) / 64
  {
  }

  lemma FirstByteFits(cp: nat)
    requires cp <= 0x10ffff
    ensures var n := Utf8Length(cp);
      Shifted(cp, n - 1) < (if n == 1 then 0x80 else if n == 2 then 0x20 else if n == 3 then 0x10 else 8)
  {
    assert Shifted(cp, 1) == cp / 64 && Shifted(cp, 2) == cp / 64 / 64 && Shifted(cp, 3) == cp / 64 / 64 / 64;
  }

  lemma EncodedBytes(cp: nat)
    requires cp <= 0x10ffff
    ensures var n := Utf8Length(cp);
      && Utf8(cp)[0] == (if n == 1 then 0 else if n == 2 then 0xc0 else if n == 3 then 0xe0 else 0xf0)
        + Shifted(cp, n - 1)
      && forall l :: 0 < l < n ==> Utf8(cp)[l] == 0x80 + Shifted(cp, n - 1 - l) % 64
  {
    assert Shifted(cp, 1) == cp / 64 && Shifted(cp, 2) == cp / 64 / 64 && Shifted(cp, 3) == cp / 64 / 64 / 64;
    DivTwice(cp);
  }

  // ----- the size estimate of parse_string -----

  /** Which bytes of a text start an escape, as the first scan sees it. */
  type Flags = seq<bool>

  function Count(f: Flags, n: nat): (c: nat)
    requires n <= |f|
    ensures c <= n
  {
    if n == 0 then 0 else Count(f, n - 1) + (if f[n - 1] then 1 else 0)
  }

  /** Bytes in front of n, less the escapes that start among them. */
  function Slack(f: Flags, n: nat): nat
    requires n <= |f|
  {
    n - Count(f, n)
  }

  /** The byte behind an escape's backslash starts no escape. */
  predicate Sparse(f: Flags) { forall k :: 0 < k < |f| ==> !(f[k - 1] && f[k]) }

  lemma {:induction false} CountPrefix(f: Flags, g: Flags, n: nat)
    requires n <= |f|
    ensures Count(f + g, n) == Count(f, n)
  {
    if n > 0 { CountPrefix(f, g, n - 1); }
  }

  lemma {:induction false} SlackGrows(f: Flags, n: nat, m: nat)
    requires n <= m <= |f|
    ensures Slack(f, n) <= Slack(f, m)
    decreases m
  {
    if n < m { SlackGrows(f, n, m - 1); }
  }

  /** Of two neighbours at most one starts an escape. */
  lemma {:induction false} SlackWindow(f: Flags, n: nat, pairs: nat)
    requires Sparse(f) && n + 2 * pairs <= |f|
    ensures Slack(f, n + 2 * pairs) >= Slack(f, n) + pairs
    decreases pairs
  {
    if pairs > 0 {
      SlackWindow(f, n, pairs - 1);
      var m := n + 2 * (pairs - 1);
      assert !(f[m + 1 - 1] && f[m + 1]);
      assert Count(f, m + 2) == Count(f, m + 1) + (if f[m + 1] then 1 else 0);
      assert Count(f, m + 1) == Count(f, m) + (if f[m] then 1 else 0);
    }
  }

  // ----- the parser -----

  class ParseBuffer {
    const content: Bytes
    const codec: Codec
    var offset: nat
    var depth: nat

    constructor (content: Bytes, codec: Codec)
      ensures this.content == content && this.codec == codec && offset == 0 && depth == 0
    {
      this.content, this.codec, offset, depth := content, codec, 0, 0;
    }

    /** buffer_skip_whitespace. */
    method SkipWhitespace()
      requires offset < |content|
      modifies this`offset
      ensures offset == Skip(content, old(offset)) < |content|
    {
      while offset < |content| && content[offset] <= 32
        invariant offset <= |content|
        invariant Skip(content, old(offset)) == if offset == |content| then |content| - 1 else Skip(content, offset)
      {
        offset := offset + 1;
      }
      if offset == |content| { offset := offset - 1; }
    }

    /** The first scan of parse_string: the closing quote and the number of escapes. */
    method FindEnd(start: nat) returns (ok: bool, end: nat, skipped: nat, ghost flags: Flags)
      requires start <= |content|
      ensures StringEnd(content, start) == if ok then Some(end) else None
      ensures ok ==>
        start <= end < |content| && |flags| == end - start && Sparse(flags) && skipped == Count(flags, |flags|)
      ensures ok ==> forall k :: 0 <= k < |flags| && flags[k] ==> content[start + k] == BACKSLASH
    {
      end, skipped, flags := start, 0, [];
      while end < |content| && content[end] != QUOTE
        invariant start <= end <= |content| && |flags| == end - start
        invariant StringEnd(content, start) == StringEnd(content, end)
        invariant Sparse(flags) && (flags == [] || !flags[|flags| - 1]) && skipped == Count(flags, |flags|)
        invariant forall k :: 0 <= k < |flags| && flags[k] ==> content[start + k] == BACKSLASH
      {
        CountPrefix(flags, [false], |flags|);
        if content[end] == BACKSLASH {
          if end + 1 >= |content| { return false, end, skipped, flags; }
          skipped := skipped + 1;
          CountPrefix(flags, [true, false], |flags|);
          assert Count(flags + [true, false], |flags| + 1) == Count(flags, |flags|) + 1;
          end, flags := end + 2, flags + [true, false];
        } else {
          end, flags := end + 1, flags + [false];
        }
      }
      ok := end < |content|;
    }

    /** parse_string: the string literal at the offset.  The output array has room for the
        size estimated from the first scan, which no input exceeds. */
    method ParseString() returns (ok: bool, value: Bytes)
      requires offset < |content|
      modifies this`offset
      ensures ok <==> ReadString(content, old(offset)).Some?
      ensures ok ==> var r := ReadString(content, old(offset)).value; value == UpToNul(r.0) && offset == r.1
    {
      hide StringEnd, Unescape, UpToNul, Sparse, Count;
      value := [];
      if content[offset] != QUOTE { return false, value; }
      var found, end, skipped, flags := FindEnd(offset + 1);
      if !found { return false, value; }
      var bytes;
      ok, bytes := Decode(end, skipped, flags);
      if ok {
        value := UpToNul(bytes);
        offset := end + 1;
      }
    }

    /** The second scan of parse_string: the bytes that the text stands for, in an array of the
        estimated size.  When an escape is wrong, the offset is left at it. */
    method Decode(end: nat, skipped: nat, ghost flags: Flags) returns (ok: bool, bytes: Bytes)
      requires offset + 1 <= end < |content| && |flags| == end - offset - 1 && Sparse(flags)
      requires skipped == Count(flags, |flags|)
      requires forall k :: 0 <= k < |flags| && flags[k] ==> content[offset + 1 + k] == BACKSLASH
      modifies this`offset
      ensures Unescape(content, old(offset) + 1, end) == if ok then Some(bytes) else None
      ensures ok ==> offset == old(offset)
    {
      hide StringEnd, Unescape, Sparse, Count, ReadLiteral, Utf8, Escaped;
      var start := offset + 1;
      var out := new Byte[end - offset - skipped + 1];
      ghost var f := flags + [false];
      EstimateStart(flags);
      assert |f| == end + 1 - start && Slack(f, |f|) == end + 1 - start - skipped == out.Length - 1;
      var i: nat, o: nat := start, 0;
      UnescapeStart(content, start, end, out[..o]);
      bytes := [];
      while i < end
        invariant offset == old(offset) && fresh(out) && start <= i <= end + 1 && o <= Slack(f, i - start)
        invariant o < out.Length
        invariant Unescape(content, start, end) == Prepend(out[..o], Unescape(content, i, end))
        decreases end - i
      {
        ghost var done := out[..o];
        if content[i] != BACKSLASH {
          PlainRoom(f, i - start, |flags|);
          UnescapePlain(content, i, end, done);
          out[o] := content[i];
          i, o := i + 1, o + 1;
          assert out[..o] == done + [content[i - 1]];
        } else if content[i + 1] == LOWER_U {
          UnescapeLiteral(content, i, end, done);
          LiteralRoom(f, content, i, start, end);
          var length, o' := Utf16LiteralToUtf8(content, i, end, out, o);
          if length == 0 {
            offset := i;
            return false, bytes;
          }
          i, o := i + length, o';
        } else {
          UnescapeEscape(content, i, end, done);
          var b := Escaped(content[i + 1]);
          if b.None? {
            offset := i;
            return false, bytes;
          }
          EscapeRoom(f, i - start);
          out[o] := b.value;
          i, o := i + 2, o + 1;
          assert out[..o] == done + [b.value];
        }
      }
      UnescapeEnd(content, i, end, out[..o]);
      ok, bytes := true, out[..o];
      out[o] := NUL;
    }

    /** parse_number: copy the bytes that can belong to a number, at most 63, and convert. */
    method ParseNumber() returns (ok: bool, item: Json)
      requires Terminated(content) && offset < |content|
      modifies this`offset
      ensures ok <==> ReadNumber(codec, content, old(offset)).Some?
      ensures ok ==> var r := ReadNumber(codec, content, old(offset)).value; item == r.0 && offset == r.1
    {
      hide NumberChar, NumberRun, ReadNumber;
      var n := 0;
      while n < 63 && offset + n < |content| && NumberChar(content[offset + n])
        invariant offset == old(offset) && 0 <= n <= 63 && offset + n <= |content|
        invariant forall k :: offset <= k < offset + n ==> NumberChar(content[k])
        invariant NumberRun(content, offset, 0) == NumberRun(content, offset, n)
      {
        RunStep(content, offset, n);
        n := n + 1;
      }
      RunEnd(content, offset, n);
      ReadNumberIs(codec, content, offset, n);
      item := Null;
      var r := codec.read(content[offset..offset + n]);
      if r.None? || !(0 < r.value.1 <= n) { return false, item; }
      ok, item := true, Number(r.value.0);
      offset := offset + r.value.1;
    }

    /** parse_value: the value at the offset. */
    method ParseValue() returns (ok: bool, item: Json)
      requires Terminated(content) && offset < |content|
      modifies this`offset, this`depth
      ensures ok <==> Read(codec, content, old(offset), old(depth)).Some?
      ensures ok ==>
        var r := Read(codec, content, old(offset), old(depth)).value;
        item == r.0 && offset == r.1 && depth == old(depth)
      decreases |content| - offset, 3
    {
      hide ReadString, ReadNumber, ReadArray, ReadObject, UpToNul;
      item := Null;
      if At(content, offset, NULL_TEXT) {
        offset := offset + 4;
        return true, Null;
      }
      if At(content, offset, FALSE_TEXT) {
        offset := offset + 5;
        return true, False;
      }
      if At(content, offset, TRUE_TEXT) {
        offset := offset + 4;
        return true, True;
      }
      if content[offset] == QUOTE {
        var value;
        ok, value := ParseString();
        item := String(value);
      } else if NumberStart(content[offset]) {
        ok, item := ParseNumber();
      } else if content[offset] == OPEN_ARRAY {
        ok, item := ParseArray();
      } else if content[offset] == OPEN_OBJECT {
        ok, item := ParseObject();
      } else {
        ok := false;
      }
    }

    /** parse_array: the depth is restored when the array is complete. */
    method ParseArray() returns (ok: bool, item: Json)
      requires Terminated(content) && offset < |content| && content[offset] == OPEN_ARRAY
      modifies this`offset, this`depth
      ensures ok <==> ReadArray(codec, content, old(offset), old(depth)).Some?
      ensures ok ==>
        var r := ReadArray(codec, content, old(offset), old(depth)).value;
        item == r.0 && offset == r.1 && depth == old(depth)
      decreases |content| - offset, 2
    {
      hide Read, ReadItems, Skip;
      item := Null;
      if depth >= NESTING_LIMIT { return false, item; }
      depth := depth + 1;
      offset := offset + 1;
      SkipWhitespace();
      if content[offset] == CLOSE_ARRAY {
        depth := depth - 1;
        offset := offset + 1;
        return true, Array([]);
      }
      offset := offset - 1;
      ghost var first, d := offset, depth;
      var items: seq<Json> := [];
      StartItems(ReadItems(codec, content, first, d));
      while true
        invariant old(offset) <= offset && offset + 1 < |content| && depth == d
        invariant ReadItems(codec, content, first, d) == MoreItems(items, ReadItems(codec, content, offset, d))
        decreases |content| - offset
      {
        ghost var here := offset;
        offset := offset + 1;
        SkipWhitespace();
        var got, v := ParseValue();
        NextItem(codec, content, here, d, items);
        if !got { return false, item; }
        items := items + [v];
        SkipWhitespace();
        if content[offset] != COMMA { break; }
      }
      if content[offset] != CLOSE_ARRAY { return false, item; }
      depth := depth - 1;
      offset := offset + 1;
      ok, item := true, Array(items);
    }

    /** parse_object. */
    method ParseObject() returns (ok: bool, item: Json)
      requires Terminated(content) && offset < |content| && content[offset] == OPEN_OBJECT
      modifies this`offset, this`depth
      ensures ok <==> ReadObject(codec, content, old(offset), old(depth)).Some?
      ensures ok ==>
        var r := ReadObject(codec, content, old(offset), old(depth)).value;
        item == r.0 && offset == r.1 && depth == old(depth)
      decreases |content| - offset, 2
    {
      hide Read, ReadMembers, Skip, ReadName;
      item := Null;
      if depth >= NESTING_LIMIT { return false, item; }
      depth := depth + 1;
      offset := offset + 1;
      SkipWhitespace();
      if content[offset] == CLOSE_OBJECT {
        depth := depth - 1;
        offset := offset + 1;
        return true, Object([]);
      }
      offset := offset - 1;
      ghost var first, d := offset, depth;
      var members: seq<Member> := [];
      StartMembers(ReadMembers(codec, content, first, d));
      while true
        invariant old(offset) <= offset && offset + 1 < |content| && depth == d
        invariant ReadMembers(codec, content, first, d) == MoreMembers(members, ReadMembers(codec, content, offset, d))
        decreases |content| - offset
      {
        ghost var here := offset;
        NextMember(codec, content, here, d, members);
        var named, key := ParseName();
        if !named { return false, item; }
        var got, v := ParseValue();
        if !got { return false, item; }
        members := members + [Member(key, v)];
        SkipWhitespace();
        if content[offset] != COMMA { break; }
      }
      if content[offset] != CLOSE_OBJECT { return false, item; }
      depth := depth - 1;
      offset := offset + 1;
      ok, item := true, Object(members);
    }

    /** The name of a member, from the byte in front of it to its value. */
    method ParseName() returns (ok: bool, key: Bytes)
      requires Terminated(content) && offset + 1 < |content|
      modifies this`offset
      ensures ok <==> ReadName(content, old(offset)).Some?
      ensures ok ==> var r := ReadName(content, old(offset)).value; key == r.0 && offset == r.1
    {
      hide Skip, ReadString, UpToNul;
      offset := offset + 1;
      SkipWhitespace();
      ok, key := ParseString();
      if !ok { return; }
      SkipWhitespace();
      if content[offset] != COLON { return false, key; }
      offset := offset + 1;
      SkipWhitespace();
    }
  }

  lemma RunStep(s: Bytes, i: nat, n: nat)
    requires i + n < |s| && n < 63 && forall k :: i <= k < i + n + 1 ==> NumberChar(s[k])
    ensures NumberRun(s, i, n) == NumberRun(s, i, n + 1)
  {
  }

  lemma ReadNumberIs(c: Codec, s: Bytes, i: nat, n: nat)
    requires Terminated(s) && i < |s| && NumberRun(s, i, 0) == n && i + n <= |s|
    ensures var r := c.read(s[i..i + n]);
      ReadNumber(c, s, i) == if r.None? || !(0 < r.value.1 <= n) then None else Some((Number(r.value.0), i + r.value.1))
  {
  }

  lemma RunEnd(s: Bytes, i: nat, n: nat)
    requires i + n <= |s| && n <= 63 && forall k :: i <= k < i + n ==> NumberChar(s[k])
    requires n == 63 || i + n == |s| || !NumberChar(s[i + n])
    ensures NumberRun(s, i, n) == n
  {
  }

  /** cJSON_ParseWithOpts. */
  method ParseWithOpts(codec: Codec, text: Bytes, whole: bool) returns (r: Option<Json>)
    ensures r == Parse(codec, text, whole)
  {
    hide Read, Skip;
    var buffer := new ParseBuffer(UpToNul(text) + [NUL], codec);
    buffer.offset := Begin(buffer.content);
    buffer.SkipWhitespace();
    var ok, item := buffer.ParseValue();
    if !ok { return None; }
    if whole {
      buffer.SkipWhitespace();
      if buffer.content[buffer.offset] != NUL { return None; }
    }
    return Some(item);
  }

  // ----- lists that grow at the end -----

  function MoreItems(items: seq<Json>, rest: Option<(seq<Json>, nat)>): Option<(seq<Json>, nat)> {
    if rest.None? then None else Some((items + rest.value.0, rest.value.1))
  }

  lemma StartItems(r: Option<(seq<Json>, nat)>)
    ensures MoreItems([], r) == r
  {
    if r.Some? { assert [] + r.value.0 == r.value.0; }
  }

  /** One item, and what is left of the list. */
  lemma NextItem(c: Codec, s: Bytes, i: nat, depth: nat, items: seq<Json>)
    requires Terminated(s) && i + 1 < |s|
    ensures var r := Read(c, s, Skip(s, i + 1), depth);
      && (r.None? ==> ReadItems(c, s, i, depth).None?)
      && (r.Some? ==>
            var k := Skip(s, r.value.1);
            var whole := MoreItems(items, ReadItems(c, s, i, depth));
            && (s[k] == COMMA ==> k + 1 < |s| && whole == MoreItems(items + [r.value.0], ReadItems(c, s, k, depth)))
            && (s[k] == CLOSE_ARRAY ==> whole == Some((items + [r.value.0], k + 1)))
            && (s[k] != COMMA && s[k] != CLOSE_ARRAY ==> whole.None?))
  {
    hide Read, Skip;
    var r := Read(c, s, Skip(s, i + 1), depth);
    if r.Some? {
      var k := Skip(s, r.value.1);
      if s[k] == COMMA && ReadItems(c, s, k, depth).Some? {
        var rest := ReadItems(c, s, k, depth).value.0;
        assert items + ([r.value.0] + rest) == items + [r.value.0] + rest;
      }
    }
  }

  function MoreMembers(members: seq<Member>, rest: Option<(seq<Member>, nat)>): Option<(seq<Member>, nat)> {
    if rest.None? then None else Some((members + rest.value.0, rest.value.1))
  }

  lemma StartMembers(r: Option<(seq<Member>, nat)>)
    ensures MoreMembers([], r) == r
  {
    if r.Some? { assert [] + r.value.0 == r.value.0; }
  }

  lemma NextMember(c: Codec, s: Bytes, i: nat, depth: nat, members: seq<Member>)
    requires Terminated(s) && i + 1 < |s|
    ensures var n := ReadName(s, i);
      && (n.None? ==> ReadMembers(c, s, i, depth).None?)
      && (n.Some? ==>
            var r := Read(c, s, n.value.1, depth);
            && (r.None? ==> ReadMembers(c, s, i, depth).None?)
            && (r.Some? ==>
                  var k, m := Skip(s, r.value.1), Member(n.value.0, r.value.0);
                  var whole := MoreMembers(members, ReadMembers(c, s, i, depth));
                  && (s[k] == COMMA ==> k + 1 < |s| && whole == MoreMembers(members + [m], ReadMembers(c, s, k, depth)))
                  && (s[k] == CLOSE_OBJECT ==> whole == Some((members + [m], k + 1)))
                  && (s[k] != COMMA && s[k] != CLOSE_OBJECT ==> whole.None?)))
  {
    hide Read, Skip, ReadName;
    var n := ReadName(s, i);
    if n.Some? {
      var r := Read(c, s, n.value.1, depth);
      if r.Some? {
        var k, m := Skip(s, r.value.1), Member(n.value.0, r.value.0);
        if s[k] == COMMA && ReadMembers(c, s, k, depth).Some? {
          var rest := ReadMembers(c, s, k, depth).value.0;
          assert members + ([m] + rest) == members + [m] + rest;
        }
      }
    }
  }

  // ----- one step of the second scan -----

  lemma UnescapeStart(s: Bytes, i: nat, end: nat, done: Bytes)
    requires end < |s| && done == []
    ensures Unescape(s, i, end) == Prepend(done, Unescape(s, i, end))
  {
    match Unescape(s, i, end)
    case None =>
    case Some(y) => assert [] + y == y;
  }

  lemma UnescapeEnd(s: Bytes, i: nat, end: nat, done: Bytes)
    requires end < |s| && i >= end
    ensures Prepend(done, Unescape(s, i, end)) == Some(done)
  {
    assert done + [] == done;
  }

  lemma PrependTwice(x: Bytes, y: Bytes, rest: Option<Bytes>)
    ensures Prepend(x, Prepend(y, rest)) == Prepend(x + y, rest)
  {
    match rest
    case None =>
    case Some(z) => assert x + (y + z) == x + y + z;
  }

  lemma UnescapePlain(s: Bytes, i: nat, end: nat, done: Bytes)
    requires i < end < |s| && s[i] != BACKSLASH
    ensures Prepend(done, Unescape(s, i, end)) == Prepend(done + [s[i]], Unescape(s, i + 1, end))
  {
    PrependTwice(done, [s[i]], Unescape(s, i + 1, end));
  }

  lemma UnescapeLiteral(s: Bytes, i: nat, end: nat, done: Bytes)
    requires i < end < |s| && s[i] == BACKSLASH && s[i + 1] == LOWER_U
    ensures ReadLiteral(s, i, end).None? ==> Prepend(done, Unescape(s, i, end)) == None
    ensures ReadLiteral(s, i, end).Some? ==>
      var lit := ReadLiteral(s, i, end).value;
      Prepend(done, Unescape(s, i, end)) == Prepend(done + Utf8(lit.scalar), Unescape(s, i + lit.length, end))
  {
    hide ReadLiteral, Utf8;
    var r := ReadLiteral(s, i, end);
    if r.Some? { PrependTwice(done, Utf8(r.value.scalar), Unescape(s, i + r.value.length, end)); }
  }

  lemma UnescapeEscape(s: Bytes, i: nat, end: nat, done: Bytes)
    requires i < end < |s| && s[i] == BACKSLASH && s[i + 1] != LOWER_U
    ensures Escaped(s[i + 1]).None? ==> Prepend(done, Unescape(s, i, end)) == None
    ensures Escaped(s[i + 1]).Some? ==>
      Prepend(done, Unescape(s, i, end)) == Prepend(done + [Escaped(s[i + 1]).value], Unescape(s, i + 2, end))
  {
    hide Escaped;
    var r := Escaped(s[i + 1]);
    if r.Some? { PrependTwice(done, [r.value], Unescape(s, i + 2, end)); }
  }

  lemma EstimateStart(flags: Flags)
    requires Sparse(flags)
    ensures var f := flags + [false];
      Sparse(f) && Count(f, |f|) == Count(flags, |flags|) && Slack(f, 0) == 0 && Slack(f, |f|) >= 1
  {
    var f := flags + [false];
    CountPrefix(flags, [false], |flags|);
    assert Count(f, |f|) == Count(f, |flags|) + 0;
  }

  /** A byte that is no backslash starts no escape. */
  lemma PlainRoom(f: Flags, n: nat, last: nat)
    requires n < |f| && !f[n]
    ensures Slack(f, n + 1) == Slack(f, n) + 1 <= Slack(f, |f|)
  {
    SlackGrows(f, n + 1, |f|);
  }

  lemma EscapeRoom(f: Flags, n: nat)
    requires Sparse(f) && n + 2 <= |f|
    ensures Slack(f, n + 2) >= Slack(f, n) + 1 && Slack(f, n + 2) <= Slack(f, |f|)
  {
    SlackWindow(f, n, 1);
    SlackGrows(f, n + 2, |f|);
  }

  /** A literal's encoding is never longer than half its text. */
  lemma LiteralRoom(f: Flags, s: Bytes, i: nat, start: nat, end: nat)
    requires Sparse(f) && start <= i <= end < |s| && |f| == end + 1 - start
    ensures ReadLiteral(s, i, end).Some? ==>
      var lit := ReadLiteral(s, i, end).value; var n := i + lit.length - start;
      n <= |f| && Slack(f, i - start) + Utf8Length(lit.scalar) <= Slack(f, n) <= Slack(f, |f|)
  {
    hide Sparse, Slack, ReadLiteral;
    var r := ReadLiteral(s, i, end);
    if r.Some? {
      var n := i + r.value.length - start;
      SlackWindow(f, i - start, r.value.length / 2);
      SlackGrows(f, n, |f|);
    }
  }
}
