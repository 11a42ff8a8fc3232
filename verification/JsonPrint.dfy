/**
 The JSON printer of src/cJSON.c: a print buffer that grows as ensure() asks, with an offset
 that lags behind the text until update_offset() moves it to the terminating NUL.

 The buffer is a sequence that is replaced when it is reallocated; new memory holds arbitrary
 bytes.
 */
module JsonPrint {
  import opened Basics
  import opened JsonText
  import opened JsonTree

  const INT_MAX := 0x7fff_ffff

  /** C strings, and number texts without NUL. */
  predicate Writable(c: Codec, v: Json) {
    match v
    case Number(n) => NulFree(c.text(n))
    case String(s) => NulFree(s)
    case Array(items) => forall i :: 0 <= i < |items| ==> Writable(c, items[i])
    case Object(members) => forall i :: 0 <= i < |members| ==> NulFree(members[i].key) && Writable(c, members[i].value)
    case _ => true
  }

  /** Number texts that fit print_number's buffer. */
  predicate Short(c: Codec, v: Json) {
    match v
    case Number(n) => |c.text(n)| <= 25
    case Array(items) => forall i :: 0 <= i < |items| ==> Short(c, items[i])
    case Object(members) => forall i :: 0 <= i < |members| ==> Short(c, members[i].value)
    case _ => true
  }

  // ----- texts without NUL -----

  lemma WrittenStringNulFree(s: Bytes)
    ensures NulFree(WriteString(s))
  {
    EscapeAllPrintable(s);
    hide EscapeAll;
    assert NulFree(EscapeAll(s));
  }

  lemma {:induction false} WriteNulFree(c: Codec, v: Json, fmt: bool, depth: nat)
    requires Writable(c, v)
    ensures NulFree(Write(c, v, fmt, depth))
    decreases v, 1
  {
    hide WriteString, WriteItems, WriteMembers;
    match v
    case Null =>
    case False =>
    case True =>
    case Number(_) =>
    case String(s) => WrittenStringNulFree(s);
    case Array(items) => ItemsNulFree(c, items, fmt, depth + 1);
    case Object(members) => MembersNulFree(c, members, fmt, depth + 1);
  }

  lemma {:induction false} ItemsNulFree(c: Codec, items: seq<Json>, fmt: bool, depth: nat)
    requires forall i :: 0 <= i < |items| ==> Writable(c, items[i])
    ensures NulFree(WriteItems(c, items, fmt, depth))
    decreases items
  {
    hide Write, Writable;
    if items != [] {
      WriteNulFree(c, items[0], fmt, depth);
      ItemsNulFree(c, items[1..], fmt, depth);
    }
  }

  lemma {:induction false} MembersNulFree(c: Codec, members: seq<Member>, fmt: bool, depth: nat)
    requires forall i :: 0 <= i < |members| ==> NulFree(members[i].key) && Writable(c, members[i].value)
    ensures NulFree(WriteMembers(c, members, fmt, depth))
    decreases members
  {
    hide Write, Writable, WriteString;
    if members != [] {
      WrittenStringNulFree(members[0].key);
      WriteNulFree(c, members[0].value, fmt, depth);
      MembersNulFree(c, members[1..], fmt, depth);
    }
  }

  // ----- escaping, byte by byte -----

  lemma {:induction false} EscapeAllAppend(s: Bytes, b: Byte)
    ensures EscapeAll(s + [b]) == EscapeAll(s) + Escape(b)
  {
    hide Escape;
    if s == [] {
      assert ([] + [b])[1..] == [];
    } else {
      assert (s + [b])[1..] == s[1..] + [b];
      EscapeAllAppend(s[1..], b);
      assert EscapeAll(s) + Escape(b) == Escape(s[0]) + (EscapeAll(s[1..]) + Escape(b));
    }
  }

  /** What follows the backslash of an escape. */
  function Letters(b: Byte): Bytes {
    if b == QUOTE || b == BACKSLASH then [b]
    else if b == BS then [LOWER_B]
    else if b == FF then [LOWER_F]
    else if b == LF then [LOWER_N]
    else if b == CR then [LOWER_R]
    else if b == TAB then [LOWER_T]
    else [LOWER_U, 0x30, 0x30, HexChar(b / 16 % 16), HexChar(b % 16)]
  }

  lemma EscapeLetters(b: Byte)
    requires b <= 31 || b == QUOTE || b == BACKSLASH
    ensures Escape(b) == [BACKSLASH] + Letters(b)
  {
  }

  lemma EscapePlain(b: Byte)
    requires b > 31 && b != QUOTE && b != BACKSLASH
    ensures Escape(b) == [b]
  {
  }

  lemma EscapePrefix(s: Bytes, i: nat)
    requires i < |s|
    ensures EscapeAll(s[..i + 1]) == EscapeAll(s[..i]) + Escape(s[i])
  {
    hide EscapeAll, Escape;
    assert s[..i + 1] == s[..i] + [s[i]];
    EscapeAllAppend(s[..i], s[i]);
  }

  lemma {:induction false} NothingEscaped(s: Bytes)
    requires |EscapeAll(s)| == |s|
    ensures EscapeAll(s) == s
  {
    if s != [] {
      EscapeAllLonger(s[1..]);
      NothingEscaped(s[1..]);
    }
  }

  lemma {:induction false} EscapeAllLonger(s: Bytes)
    ensures |EscapeAll(s)| >= |s|
  {
    if s != [] { EscapeAllLonger(s[1..]); }
  }

  // ----- buffers -----

  /** Buffer b starts like b0 up to o0, then holds the text and its NUL; the offset is somewhere
      in the text. */
  ghost predicate Printed(b0: Bytes, o0: nat, b: Bytes, off: nat, text: Bytes) {
    && o0 <= |b0| && o0 <= off <= o0 + |text| < |b|
    && b[..o0 + |text|] == b0[..o0] + text && b[o0 + |text|] == NUL
  }

  /** The same, with the offset at the end of the text. */
  ghost predicate Reached(b0: Bytes, o0: nat, b: Bytes, off: nat, text: Bytes) {
    o0 <= |b0| && off == o0 + |text| < |b| && b[..off] == b0[..o0] + text
  }

  class PrintBuffer {
    var buffer: Bytes
    /** Whether there is a buffer at all. */
    var live: bool
    var offset: nat
    var depth: nat
    const noalloc: bool
    const format: bool
    const codec: Codec
    /** The most bytes that the buffer can come to hold. */
    const limit: nat
    /** The allocator's answer to each request, and how many requests there have been. */
    const grants: nat -> bool
    var asked: nat

    constructor (size: nat, noalloc: bool, format: bool, codec: Codec, grants: nat -> bool)
      requires size <= INT_MAX
      ensures Valid() && |buffer| == size && offset == 0 && depth == 0 && asked == 0
      ensures this.noalloc == noalloc && this.format == format && this.codec == codec && this.grants == grants
      ensures limit == if noalloc then size else INT_MAX
    {
      var memory := new Byte[size];
      buffer, live, offset, depth, asked := memory[..], true, 0, 0, 0;
      this.noalloc, this.format, this.codec, this.grants := noalloc, format, codec, grants;
      limit := if noalloc then size else INT_MAX;
    }

    ghost predicate Valid()
      reads this
    {
      && live && (offset < |buffer| || (offset == 0 && buffer == []))
      && |buffer| <= limit <= INT_MAX && (if noalloc then |buffer| == limit else limit == INT_MAX)
    }

    /** Whether memory is never refused. */
    ghost predicate Reliable() { noalloc || forall n: nat :: grants(n) }

    /** There is room for a text at o, its NUL and the byte that ensure() adds. */
    ghost predicate Fits(o: nat, text: Bytes) { o + |text| + 2 <= limit }

    /** There is room for the value's text, and every number's text is short enough. */
    ghost predicate CanPrint(v: Json, o: nat, d: nat) { Fits(o, Write(codec, v, format, d)) && Short(codec, v) }

    ghost predicate CanPrintMember(m: Member, more: bool, o: nat, d: nat) {
      Fits(o, MemberText(codec, m, more, format, d)) && Short(codec, m.value)
    }

    /** ensure: room for `needed` bytes and a NUL at the offset. */
    method Ensure(needed: nat) returns (ok: bool)
      requires Valid()
      modifies this`buffer, this`live, this`asked
      ensures ok ==> Valid() && offset + needed < |buffer| && buffer[..offset] == old(buffer)[..offset]
      ensures ok ==> offset + needed < limit
      ensures noalloc ==> |buffer| == limit
      ensures Reliable() && offset + needed < limit ==> ok
    {
      if needed > INT_MAX { return false; }
      var size := needed + offset + 1;
      if size <= |buffer| { return true; }
      if noalloc { return false; }
      var newsize := size * 2;
      if size > INT_MAX / 2 {
        if size > INT_MAX { return false; }
        newsize := INT_MAX;
      }
      asked := asked + 1;
      if !grants(asked - 1) {
        buffer, live := [], false;
        return false;
      }
      var memory := new Byte[newsize];
      buffer := buffer[..offset] + memory[offset..];
      return true;
    }

    /** Successive stores from position at on. */
    method Store(at: nat, t: Bytes)
      requires at + |t| <= |buffer|
      modifies this`buffer
      ensures |buffer| == |old(buffer)| && buffer[..at + |t|] == old(buffer)[..at] + t
    {
      var i := 0;
      while i < |t|
        invariant 0 <= i <= |t| && |buffer| == |old(buffer)|
        invariant buffer[..at + i] == old(buffer)[..at] + t[..i]
      {
        buffer := buffer[at + i := t[i]];
        i := i + 1;
      }
      assert t[..i] == t;
    }

    /** update_offset: move the offset to the NUL behind the text. */
    method UpdateOffset(ghost b0: Bytes, ghost o0: nat, ghost text: Bytes)
      requires Valid() && NulFree(text) && Printed(b0, o0, buffer, offset, text)
      modifies this`offset
      ensures Valid() && Reached(b0, o0, buffer, offset, text)
    {
      var n := 0;
      while buffer[offset + n] != NUL
        invariant offset + n <= o0 + |text|
        decreases o0 + |text| - offset - n
      {
        n := n + 1;
      }
      offset := offset + n;
    }

    /** The two quotes and a NUL at the offset, around the text that Fill writes. */
    method PrintStringPtr(v: Bytes) returns (ok: bool)
      requires Valid() && NulFree(v)
      modifies this`buffer, this`live, this`asked
      ensures ok ==> Valid() && Printed(old(buffer), offset, buffer, offset, WriteString(v))
      ensures ok ==> Fits(offset, WriteString(v))
      ensures noalloc ==> |buffer| == limit
      ensures Reliable() && Fits(offset, WriteString(v)) ==> ok
    {
      hide EscapeAll, Printed;
      var extra := CountEscapes(v);
      var length := |v| + extra;
      ok := Ensure(length + 3);
      if !ok { return; }
      ghost var room := buffer;
      StoreString(v, extra);
      SamePrefix(old(buffer), room, offset, buffer, WriteString(v));
    }

    /** The quoted string and its NUL, copied as it is if nothing has to be escaped. */
    method StoreString(v: Bytes, extra: nat)
      requires |EscapeAll(v)| == |v| + extra && offset + |v| + extra + 3 <= |buffer|
      modifies this`buffer
      ensures |buffer| == |old(buffer)| && Printed(old(buffer), offset, buffer, offset, WriteString(v))
    {
      hide EscapeAll, Escape, Printed;
      ghost var b0 := buffer;
      Store(offset, [QUOTE]);
      if extra == 0 {
        NothingEscaped(v);
        Store(offset + 1, v);
      } else {
        Fill(v);
      }
      Store(offset + |v| + extra + 1, [QUOTE, NUL]);
      StringStored(b0, offset, buffer, v);
    }

    /** The number of bytes that escaping adds. */
    method CountEscapes(v: Bytes) returns (extra: nat)
      ensures |EscapeAll(v)| == |v| + extra
    {
      hide EscapeAll;
      extra := 0;
      EscapeNothing();
      var i := 0;
      while i < |v|
        invariant 0 <= i <= |v| && |EscapeAll(v[..i])| == i + extra
      {
        EscapePrefix(v, i);
        var b := v[i];
        if b == QUOTE || b == BACKSLASH || b == BS || b == FF || b == LF || b == CR || b == TAB {
          extra := extra + 1;
        } else if b < 32 {
          extra := extra + 5;
        }
        i := i + 1;
      }
      assert v[..|v|] == v;
    }

    /** One byte, escaped. */
    method StoreEscaped(at: nat, b: Byte) returns (pos: nat)
      requires at + |Escape(b)| <= |buffer|
      modifies this`buffer
      ensures pos == at + |Escape(b)| && |buffer| == |old(buffer)| && buffer[..pos] == old(buffer)[..at] + Escape(b)
    {
      hide Escape, Letters;
      if b > 31 && b != QUOTE && b != BACKSLASH {
        EscapePlain(b);
        Store(at, [b]);
        return at + 1;
      }
      Store(at, [BACKSLASH]);
      var letters := Letters(b);
      EscapeLetters(b);
      Store(at + 1, letters);
      pos := at + 1 + |letters|;
      AppendStored(old(buffer)[..at], [BACKSLASH], letters, buffer[..pos]);
    }

    /** The escaped bytes behind the opening quote. */
    method Fill(v: Bytes)
      requires offset + 1 + |EscapeAll(v)| <= |buffer|
      modifies this`buffer
      ensures |buffer| == |old(buffer)|
      ensures buffer[..offset + 1 + |EscapeAll(v)|] == old(buffer)[..offset + 1] + EscapeAll(v)
    {
      hide EscapeAll, Escape;
      var pos, i := offset + 1, 0;
      EscapeNothing();
      while i < |v|
        invariant 0 <= i <= |v| && |buffer| == |old(buffer)| && pos == offset + 1 + |EscapeAll(v[..i])| <= |buffer|
        invariant buffer[..pos] == old(buffer)[..offset + 1] + EscapeAll(v[..i])
      {
        ghost var done := EscapeAll(v[..i]);
        EscapePrefix(v, i);
        EscapeAllFits(v, i + 1);
        pos := StoreEscaped(pos, v[i]);
        AppendStored(old(buffer)[..offset + 1], done, Escape(v[i]), buffer[..pos]);
        i := i + 1;
      }
      assert v[..|v|] == v;
    }

    /** A text and its NUL at the offset. */
    method PrintLiteral(t: Bytes) returns (ok: bool)
      requires Valid()
      modifies this`buffer, this`live, this`asked
      ensures ok ==> Valid() && Printed(old(buffer), offset, buffer, offset, t) && Fits(offset, t)
      ensures noalloc ==> |buffer| == limit
      ensures Reliable() && Fits(offset, t) ==> ok
    {
      ok := Ensure(|t| + 1);
      if !ok { return; }
      Store(offset, t + [NUL]);
      assert buffer[..offset + |t|] == buffer[..offset + |t| + 1][..offset + |t|];
      assert buffer[offset + |t|] == buffer[..offset + |t| + 1][offset + |t|];
    }

    /** Reserve `needed` bytes, store a text at the offset and move the offset behind it. */
    method Append(t: Bytes, needed: nat, ghost b0: Bytes, ghost o0: nat, ghost text: Bytes) returns (ok: bool)
      requires Valid() && |t| <= needed && Reached(b0, o0, buffer, offset, text)
      modifies this`buffer, this`live, this`asked, this`offset
      ensures ok ==> Valid() && Reached(b0, o0, buffer, offset, text + t)
      ensures ok ==> old(offset) + needed < limit
      ensures noalloc ==> |buffer| == limit
      ensures Reliable() && old(offset) + needed < limit ==> ok
    {
      ok := Ensure(needed);
      if !ok { return; }
      Store(offset, t);
      ReachedMore(b0, o0, old(buffer), offset, text, buffer, t);
      offset := offset + |t|;
    }

    /** The last byte of a container and the NUL; the offset stays in front of them. */
    method Finish(t: Bytes, needed: nat, ghost b0: Bytes, ghost o0: nat, ghost text: Bytes) returns (ok: bool)
      requires Valid() && |t| < needed && Reached(b0, o0, buffer, offset, text)
      modifies this`buffer, this`live, this`asked
      ensures ok ==> Valid() && Printed(b0, o0, buffer, offset, text + t)
      ensures ok ==> offset + needed < limit
      ensures noalloc ==> |buffer| == limit
      ensures Reliable() && offset + needed < limit ==> ok
    {
      ok := Ensure(needed);
      if !ok { return; }
      ghost var at := offset + |t|;
      Store(offset, t);
      ReachedMore(b0, o0, old(buffer), offset, text, buffer, t);
      Store(offset + |t|, [NUL]);
      assert buffer[at] == buffer[..at + 1][at] == NUL;
      assert buffer[..at] == buffer[..at + 1][..at];
    }

    /** print_value. */
    method PrintValue(v: Json) returns (ok: bool)
      requires Valid() && Writable(codec, v)
      modifies this`buffer, this`live, this`asked, this`offset, this`depth
      ensures ok ==>
        && Valid() && Printed(old(buffer), old(offset), buffer, offset, Write(codec, v, format, old(depth)))
        && depth == old(depth)
      ensures ok ==> CanPrint(v, old(offset), old(depth))
      ensures noalloc ==> |buffer| == limit
      ensures Reliable() && CanPrint(v, old(offset), old(depth)) ==> ok
      decreases v, 1
    {
      hide Printed, WriteString, WriteItems, WriteMembers;
      match v
      case Null => ok := PrintLiteral(NULL_TEXT);
      case False => ok := PrintLiteral(FALSE_TEXT);
      case True => ok := PrintLiteral(TRUE_TEXT);
      case Number(n) => ok := PrintNumber(n);
      case String(s) => ok := PrintStringPtr(s);
      case Array(items) => ok := PrintArray(items);
      case Object(members) => ok := PrintObject(members);
    }

    /** print_number, which moves the offset itself. */
    method PrintNumber(n: nat) returns (ok: bool)
      requires Valid()
      modifies this`buffer, this`live, this`asked, this`offset
      ensures ok ==> Valid() && Printed(old(buffer), old(offset), buffer, offset, codec.text(n))
      ensures ok ==> Fits(old(offset), codec.text(n)) && |codec.text(n)| <= 25
      ensures noalloc ==> |buffer| == limit
      ensures Reliable() && Fits(old(offset), codec.text(n)) && |codec.text(n)| <= 25 ==> ok
    {
      var t := codec.text(n);
      if |t| > 25 { return false; }
      ok := PrintLiteral(t);
      if ok { offset := offset + |t|; }
    }

    /** print_array. */
    method PrintArray(items: seq<Json>) returns (ok: bool)
      requires Valid() && forall i :: 0 <= i < |items| ==> Writable(codec, items[i])
      modifies this`buffer, this`live, this`asked, this`offset, this`depth
      ensures ok ==>
        && Valid() && Printed(old(buffer), old(offset), buffer, offset, Write(codec, Array(items), format, old(depth)))
        && depth == old(depth)
      ensures ok ==> CanPrint(Array(items), old(offset), old(depth))
      ensures noalloc ==> |buffer| == limit
      ensures Reliable() && CanPrint(Array(items), old(offset), old(depth)) ==> ok
      decreases items, 0
    {
      hide Printed, Reached, Write, Writable, WriteItems, Short, ItemText;
      ghost var b0, o0, text := buffer, offset, [OPEN_ARRAY];
      ArraySize(codec, items, format, depth);
      ok := Open([OPEN_ARRAY], 1);
      if !ok { return; }
      depth := depth + 1;
      var rest := items;
      while rest != []
        invariant Valid() && Reached(b0, o0, buffer, offset, text) && depth == old(depth) + 1
        invariant [OPEN_ARRAY] + WriteItems(codec, items, format, depth)
          == text + WriteItems(codec, rest, format, depth)
        invariant |rest| <= |items| && rest == items[|items| - |rest|..]
        invariant forall i :: 0 <= i < |items| - |rest| ==> Short(codec, items[i])
        decreases |rest|
      {
        ItemsUnfold(codec, rest, format, depth, text);
        ReachedAt(b0, o0, buffer, offset, text);
        ok := PrintItem(rest[0], |rest| > 1, b0, o0, text);
        if !ok { return; }
        text := text + ItemText(codec, rest[0], |rest| > 1, format, depth);
        rest := rest[1..];
      }
      ArrayWritten(codec, items, format, depth - 1, text);
      ReachedAt(b0, o0, buffer, offset, text);
      ok := Finish([CLOSE_ARRAY], 2, b0, o0, text);
      if !ok { return; }
      depth := depth - 1;
    }

    /** One item and the comma behind it. */
    method PrintItem(v: Json, more: bool, ghost b0: Bytes, ghost o0: nat, ghost text: Bytes) returns (ok: bool)
      requires Valid() && Writable(codec, v) && Reached(b0, o0, buffer, offset, text)
      modifies this`buffer, this`live, this`asked, this`offset, this`depth
      ensures ok ==>
        && Valid() && Reached(b0, o0, buffer, offset, text + ItemText(codec, v, more, format, depth))
        && depth == old(depth)
      ensures ok ==> Fits(old(offset), ItemText(codec, v, more, format, old(depth))) && Short(codec, v)
      ensures noalloc ==> |buffer| == limit
      ensures Reliable() && Fits(old(offset), ItemText(codec, v, more, format, old(depth))) && Short(codec, v) ==> ok
      decreases v, 2
    {
      hide Printed, Reached, Write, Writable, Short;
      ghost var here, at, w := buffer, offset, Write(codec, v, format, depth);
      var gap := ItemGap(more, format);
      WriteNulFree(codec, v, format, depth);
      ReachedAt(b0, o0, buffer, offset, text);
      ok := PrintValue(v);
      if !ok { return; }
      UpdateOffset(here, at, w);
      ReachedTwice(b0, o0, here, at, text, buffer, offset, w);
      assert text + (w + gap) == text + w + gap;
      if more {
        ReachedAt(b0, o0, buffer, offset, text + w);
        ok := Append(gap, |gap| + 1, b0, o0, text + w);
      } else {
        assert text + w + gap == text + w;
      }
    }

    /** The opening bytes of a container. */
    method Open(t: Bytes, needed: nat) returns (ok: bool)
      requires Valid() && |t| <= needed
      modifies this`buffer, this`live, this`asked, this`offset
      ensures ok ==> Valid() && Reached(old(buffer), old(offset), buffer, offset, t)
      ensures ok ==> old(offset) + needed < limit
      ensures noalloc ==> |buffer| == limit
      ensures Reliable() && old(offset) + needed < limit ==> ok
    {
      ok := Ensure(needed);
      if !ok { return; }
      Store(offset, t);
      offset := offset + |t|;
    }

    /** print_object. */
    method PrintObject(members: seq<Member>) returns (ok: bool)
      requires Valid()
      requires forall i :: 0 <= i < |members| ==> NulFree(members[i].key) && Writable(codec, members[i].value)
      modifies this`buffer, this`live, this`asked, this`offset, this`depth
      ensures ok ==>
        && Valid() && Printed(old(buffer), old(offset), buffer, offset,
          Write(codec, Object(members), format, old(depth)))
        && depth == old(depth)
      ensures ok ==> CanPrint(Object(members), old(offset), old(depth))
      ensures noalloc ==> |buffer| == limit
      ensures Reliable() && CanPrint(Object(members), old(offset), old(depth)) ==> ok
      decreases members, 0
    {
      hide Printed, Reached, Write, Writable, WriteMembers, Tabs, Short, MemberText;
      var open: Bytes := if format then [OPEN_OBJECT, LF] else [OPEN_OBJECT];
      ghost var b0, o0, text := buffer, offset, open;
      ObjectSize(codec, members, format, depth);
      ok := Open(open, |open| + 1);
      if !ok { return; }
      depth := depth + 1;
      var rest := members;
      while rest != []
        invariant Valid() && Reached(b0, o0, buffer, offset, text) && depth == old(depth) + 1
        invariant open + WriteMembers(codec, members, format, depth) == text + WriteMembers(codec, rest, format, depth)
        invariant |rest| <= |members| && rest == members[|members| - |rest|..]
        invariant forall i :: 0 <= i < |members| - |rest| ==> Short(codec, members[i].value)
        decreases |rest|
      {
        MembersUnfold(codec, rest, format, depth, text);
        ReachedAt(b0, o0, buffer, offset, text);
        ok := PrintMember(rest[0], |rest| > 1, b0, o0, text);
        if !ok { return; }
        text := text + MemberText(codec, rest[0], |rest| > 1, format, depth);
        rest := rest[1..];
      }
      var close: Bytes := (if format then Tabs(depth - 1) else []) + [CLOSE_OBJECT];
      ObjectWritten(codec, members, format, depth - 1, open, text, close);
      ReachedAt(b0, o0, buffer, offset, text);
      ok := Finish(close, if format then depth + 1 else 2, b0, o0, text);
      if !ok { return; }
      depth := depth - 1;
    }

    /** One member: indentation, name, colon, value, comma and line end. */
    method PrintMember(m: Member, more: bool, ghost b0: Bytes, ghost o0: nat, ghost text: Bytes) returns (ok: bool)
      requires Valid() && NulFree(m.key) && Writable(codec, m.value) && Reached(b0, o0, buffer, offset, text)
      modifies this`buffer, this`live, this`asked, this`offset, this`depth
      ensures ok ==>
        && Valid() && Reached(b0, o0, buffer, offset, text + MemberText(codec, m, more, format, depth))
        && depth == old(depth)
      ensures ok ==> CanPrintMember(m, more, old(offset), old(depth))
      ensures noalloc ==> |buffer| == limit
      ensures Reliable() && CanPrintMember(m, more, old(offset), old(depth)) ==> ok
      decreases m
    {
      hide Printed, Reached, Write, Writable, WriteString, Tabs, Short, MemberText;
      var tabs: Bytes := if format then Tabs(depth) else [];
      var colon: Bytes := if format then [COLON, TAB] else [COLON];
      var gap := MemberGap(more, format);
      MemberWritten(codec, m, more, format, depth, text);
      ReachedAt(b0, o0, buffer, offset, text);
      if format {
        ok := Append(tabs, depth, b0, o0, text);
        if !ok { return; }
      } else {
        assert text + tabs == text;
      }
      ReachedAt(b0, o0, buffer, offset, text + tabs);
      ok := PrintName(m.key, b0, o0, text + tabs);
      if !ok { return; }
      ReachedAt(b0, o0, buffer, offset, text + tabs + WriteString(m.key));
      ok := Append(colon, |colon|, b0, o0, text + tabs + WriteString(m.key));
      if !ok { return; }
      ghost var before := text + tabs + WriteString(m.key) + colon;
      ghost var here, at, w := buffer, offset, Write(codec, m.value, format, depth);
      WriteNulFree(codec, m.value, format, depth);
      ReachedAt(b0, o0, buffer, offset, before);
      ok := PrintValue(m.value);
      if !ok { return; }
      UpdateOffset(here, at, w);
      ReachedTwice(b0, o0, here, at, before, buffer, offset, w);
      ReachedAt(b0, o0, buffer, offset, before + w);
      ok := Append(gap, |gap| + 1, b0, o0, before + w);
    }

    method PrintName(key: Bytes, ghost b0: Bytes, ghost o0: nat, ghost text: Bytes) returns (ok: bool)
      requires Valid() && NulFree(key) && Reached(b0, o0, buffer, offset, text)
      modifies this`buffer, this`live, this`asked, this`offset
      ensures ok ==> Valid() && Reached(b0, o0, buffer, offset, text + WriteString(key))
      ensures ok ==> Fits(old(offset), WriteString(key))
      ensures noalloc ==> |buffer| == limit
      ensures Reliable() && Fits(old(offset), WriteString(key)) ==> ok
    {
      hide Printed, Reached, WriteString;
      ghost var here, at := buffer, offset;
      ok := PrintStringPtr(key);
      if !ok { return; }
      WrittenStringNulFree(key);
      UpdateOffset(here, at, WriteString(key));
      ReachedTwice(b0, o0, here, at, text, buffer, offset, WriteString(key));
    }
  }

  /** cJSON_Print and cJSON_PrintUnformatted.  When memory is never refused there is a text if
      and only if it and two more bytes stay within INT_MAX and all numbers are short. */
  method Print(codec: Codec, v: Json, format: bool, grants: nat -> bool) returns (r: Option<Bytes>)
    requires Writable(codec, v)
    ensures r.Some? ==> r.value == Write(codec, v, format, 0)
    ensures r.Some? ==> Short(codec, v) && |Write(codec, v, format, 0)| + 2 <= 0x7fff_ffff
    ensures (forall n: nat :: grants(n)) && Short(codec, v) && |Write(codec, v, format, 0)| + 2 <= 0x7fff_ffff ==>
      r.Some?
  {
    hide Write, Writable, Short;
    if !grants(0) { return None; }
    var p := new PrintBuffer(256, false, format, codec, grants);
    p.asked := 1;
    var ok := p.PrintValue(v);
    if !ok { return None; }
    WriteNulFree(codec, v, format, 0);
    p.UpdateOffset([], 0, Write(codec, v, format, 0));
    if !grants(p.asked) { return None; }
    return Some(p.buffer[..p.offset]);
  }

  /** cJSON_PrintPreallocated: succeeds if and only if the buffer has room for the text and two
      more bytes, one for the NUL and one that ensure() adds. */
  method PrintPreallocated(codec: Codec, v: Json, length: nat, format: bool) returns (ok: bool, buffer: Bytes)
    requires Writable(codec, v) && length <= INT_MAX
    ensures ok <==> Short(codec, v) && |Write(codec, v, format, 0)| + 2 <= length
    ensures |buffer| == length
    ensures ok ==> buffer[..|Write(codec, v, format, 0)| + 1] == Write(codec, v, format, 0) + [NUL]
  {
    hide Write, Writable, Short;
    var p := new PrintBuffer(length, true, format, codec, _ => false);
    ok := p.PrintValue(v);
    buffer := p.buffer;
    if ok {
      ghost var w := Write(codec, v, format, 0);
      assert buffer[..|w| + 1] == buffer[..|w|] + [buffer[|w|]];
    }
  }

  // ----- assembling texts -----

  lemma ReachedTwice(b0: Bytes, o0: nat, b1: Bytes, o1: nat, text: Bytes, b: Bytes, off: nat, t: Bytes)
    requires Reached(b0, o0, b1, o1, text) && Reached(b1, o1, b, off, t)
    ensures Reached(b0, o0, b, off, text + t)
  {
    assert b0[..o0] + text + t == b0[..o0] + (text + t);
  }

  lemma ReachedAt(b0: Bytes, o0: nat, b: Bytes, off: nat, text: Bytes)
    requires Reached(b0, o0, b, off, text)
    ensures off == o0 + |text|
  {
  }

  lemma ArraySize(c: Codec, items: seq<Json>, fmt: bool, d: nat)
    ensures |Write(c, Array(items), fmt, d)| == |WriteItems(c, items, fmt, d + 1)| + 2
    ensures Short(c, Array(items)) <==> forall i :: 0 <= i < |items| ==> Short(c, items[i])
  {
    hide WriteItems;
  }

  lemma ObjectSize(c: Codec, members: seq<Member>, fmt: bool, d: nat)
    ensures |Write(c, Object(members), fmt, d)|
      == (if fmt then 2 + d else 1) + |WriteMembers(c, members, fmt, d + 1)| + 1
    ensures Short(c, Object(members)) <==> forall i :: 0 <= i < |members| ==> Short(c, members[i].value)
  {
    hide WriteMembers;
  }

  function ItemText(c: Codec, v: Json, more: bool, fmt: bool,
      d: nat): Bytes { Write(c, v, fmt, d) + ItemGap(more, fmt) }

  lemma ItemsUnfold(c: Codec, rest: seq<Json>, fmt: bool, d: nat, text: Bytes)
    requires rest != []
    ensures text + WriteItems(c, rest, fmt, d)
      == text + ItemText(c, rest[0], |rest| > 1, fmt, d) + WriteItems(c, rest[1..], fmt, d)
  {
    hide Write;
    var t, tail := ItemText(c, rest[0], |rest| > 1, fmt, d), WriteItems(c, rest[1..], fmt, d);
    assert text + (t + tail) == text + t + tail;
  }

  lemma ArrayWritten(c: Codec, items: seq<Json>, fmt: bool, d: nat, text: Bytes)
    requires [OPEN_ARRAY] + WriteItems(c, items, fmt, d + 1) == text + WriteItems(c, [], fmt, d + 1)
    ensures text + [CLOSE_ARRAY] == Write(c, Array(items), fmt, d)
  {
    assert WriteItems(c, [], fmt, d + 1) == [];
    hide WriteItems;
    assert text + [] == text;
  }

  function MemberText(c: Codec, m: Member, more: bool, fmt: bool, d: nat): Bytes {
    MemberStart(m.key, fmt, d) + Write(c, m.value, fmt, d) + MemberGap(more, fmt)
  }

  lemma MembersUnfold(c: Codec, rest: seq<Member>, fmt: bool, d: nat, text: Bytes)
    requires rest != []
    ensures text + WriteMembers(c, rest, fmt, d)
      == text + MemberText(c, rest[0], |rest| > 1, fmt, d) + WriteMembers(c, rest[1..], fmt, d)
  {
    hide Write, MemberStart, MemberGap;
    var t, tail := MemberText(c, rest[0], |rest| > 1, fmt, d), WriteMembers(c, rest[1..], fmt, d);
    assert text + (t + tail) == text + t + tail;
  }

  lemma MemberWritten(c: Codec, m: Member, more: bool, fmt: bool, d: nat, text: Bytes)
    ensures var tabs: Bytes := if fmt then Tabs(d) else [];
      var colon: Bytes := if fmt then [COLON, TAB] else [COLON];
      text + tabs + WriteString(m.key) + colon + Write(c, m.value, fmt, d) + MemberGap(more, fmt)
        == text + MemberText(c, m, more, fmt, d)
  {
    hide Write, MemberGap, Tabs, WriteString;
    var tabs: Bytes := if fmt then Tabs(d) else [];
    var colon: Bytes := if fmt then [COLON, TAB] else [COLON];
    var k, w, gap := WriteString(m.key), Write(c, m.value, fmt, d), MemberGap(more, fmt);
    assert text + tabs + k + colon == text + (tabs + k + colon);
    var start := tabs + k + colon;
    assert text + start + w + gap == text + (start + w + gap);
  }

  lemma ObjectWritten(c: Codec, members: seq<Member>, fmt: bool, d: nat, open: Bytes, text: Bytes, close: Bytes)
    requires open == (if fmt then [OPEN_OBJECT, LF] else [OPEN_OBJECT])
    requires close == (if fmt then Tabs(d) else []) + [CLOSE_OBJECT]
    requires open + WriteMembers(c, members, fmt, d + 1) == text + WriteMembers(c, [], fmt, d + 1)
    ensures text + close == Write(c, Object(members), fmt, d)
  {
    assert WriteMembers(c, [], fmt, d + 1) == [];
    hide WriteMembers, Tabs;
    assert text + [] == text;
    var w, tabs := WriteMembers(c, members, fmt, d + 1), if fmt then Tabs(d) else [];
    var lf: Bytes := if fmt then [LF] else [];
    assert open == [OPEN_OBJECT] + lf;
    assert text + (tabs + [CLOSE_OBJECT]) == text + tabs + [CLOSE_OBJECT];
  }

  /** More text behind a text. */
  lemma ReachedMore(b0: Bytes, o0: nat, b1: Bytes, off: nat, text: Bytes, b: Bytes, t: Bytes)
    requires Reached(b0, o0, b1, off, text) && off + |t| <= |b| && b[..off + |t|] == b1[..off] + t
    ensures b[..o0 + |text + t|] == b0[..o0] + (text + t)
  {
    assert b0[..o0] + text + t == b0[..o0] + (text + t);
  }

  lemma SamePrefix(b0: Bytes, b1: Bytes, o: nat, b: Bytes, text: Bytes)
    requires Printed(b1, o, b, o, text) && o <= |b0| && b1[..o] == b0[..o]
    ensures Printed(b0, o, b, o, text)
  {
  }

  lemma EscapeNothing()
    ensures EscapeAll([]) == [] && forall v: Bytes {:trigger v[..0]} :: EscapeAll(v[..0]) == []
  {
  }

  lemma EscapeAllFits(v: Bytes, i: nat)
    requires i <= |v|
    ensures |EscapeAll(v[..i])| <= |EscapeAll(v)|
    decreases |v| - i
  {
    if i < |v| {
      EscapePrefix(v, i);
      EscapeAllFits(v, i + 1);
    } else {
      assert v[..i] == v;
    }
  }

  lemma AppendStored(head: Bytes, done: Bytes, more: Bytes, all: Bytes)
    requires all == head + done + more
    ensures all == head + (done + more)
  {
  }

  lemma StringStored(b0: Bytes, o: nat, b: Bytes, v: Bytes)
    requires var n := |EscapeAll(v)|;
      && o + n + 3 <= |b0| == |b|
      && b[..o + n + 3] == b0[..o] + [QUOTE] + EscapeAll(v) + [QUOTE, NUL]
    ensures Printed(b0, o, b, o, WriteString(v))
  {
    hide EscapeAll;
    var n := |EscapeAll(v)|;
    var all := b[..o + n + 3];
    assert b[..o + n + 2] == all[..o + n + 2];
    assert b[o + n + 2] == all[o + n + 2] == NUL;
    assert all[..o + n + 2] == b0[..o] + WriteString(v);
  }
}
