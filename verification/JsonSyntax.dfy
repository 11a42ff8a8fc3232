/**
 The JSON texts of RFC 8259: what is a text, and of which value.  The grammar is spelled with
 its own code points; strings are those of JsonGrammar.  The main result is that the printer
 (src/cJSON.c) writes such texts.
 */
module JsonSyntax {
  import opened Basics
  import opened JsonText
  import opened JsonTree
  import opened JsonGrammar

  // ----- the grammar -----

  /** Section 2: white space. */
  ghost predicate Space(s: Bytes) { forall k :: 0 <= k < |s| ==> s[k] in {0x20, 0x09, 0x0a, 0x0d} }

  ghost predicate Digits(s: Bytes) { |s| > 0 && forall k :: 0 <= k < |s| ==> 0x30 <= s[k] <= 0x39 }

  /** Section 6: numbers. */
  ghost predicate IntPart(s: Bytes) { Digits(s) && (s[0] == 0x30 ==> |s| == 1) }

  ghost predicate FracPart(s: Bytes) { s == [] || (s[0] == 0x2e && Digits(s[1..])) }

  ghost predicate ExpPart(s: Bytes) {
    s == [] || (|s| > 1 && s[0] in {0x45, 0x65} && Digits(if s[1] in {0x2b, 0x2d} then s[2..] else s[1..]))
  }

  ghost predicate IsNumber(s: Bytes) {
    exists a, b, c :: IntPart(a) && FracPart(b) && ExpPart(c) && (s == a + b + c || s == [0x2d] + (a + b + c))
  }

  /** Section 7: s is the whole text of a string. */
  ghost predicate IsString(s: Bytes, v: Bytes) { |s| > 0 && GrammarString(s, 0, false) == Some((v, |s|)) }

  /** Section 3: s is a text of v, without white space around it.  `num` says what a number looks
      like, the codec which number it is. */
  ghost predicate Text(num: Bytes -> bool, c: Codec, s: Bytes, v: Json)
    decreases v, 0
  {
    match v
    case Null => s == [0x6e, 0x75, 0x6c, 0x6c]
    case False => s == [0x66, 0x61, 0x6c, 0x73, 0x65]
    case True => s == [0x74, 0x72, 0x75, 0x65]
    case Number(n) => num(s) && c.read(s) == Some((n, |s|))
    case String(x) => IsString(s, x)
    case Array(items) =>
      if items == [] then exists w :: Space(w) && s == [0x5b] + w + [0x5d]
      else exists t :: Items(num, c, t, items) && s == [0x5b] + t + [0x5d]
    case Object(members) =>
      if members == [] then exists w :: Space(w) && s == [0x7b] + w + [0x7d]
      else exists t :: Members(num, c, t, members) && s == [0x7b] + t + [0x7d]
  }

  /** A value with white space around it. */
  ghost predicate Element(num: Bytes -> bool, c: Codec, s: Bytes, v: Json)
    decreases v, 1
  {
    exists a, t, b :: Space(a) && Text(num, c, t, v) && Space(b) && s == a + t + b
  }

  /** Section 5: the elements of an array. */
  ghost predicate Items(num: Bytes -> bool, c: Codec, s: Bytes, items: seq<Json>)
    requires items != []
    decreases items
  {
    if |items| == 1 then Element(num, c, s, items[0])
    else exists x, y :: Element(num, c, x, items[0]) && Items(num, c, y, items[1..]) && s == x + [0x2c] + y
  }

  /** Section 4: one name and its value. */
  ghost predicate Pair(num: Bytes -> bool, c: Codec, s: Bytes, m: Member)
    decreases m
  {
    exists a, k, b, e ::
      Space(a) && IsString(k, m.key) && Space(b) && Element(num, c, e, m.value) && s == a + k + b + [0x3a] + e
  }

  ghost predicate Members(num: Bytes -> bool, c: Codec, s: Bytes, members: seq<Member>)
    requires members != []
    decreases members
  {
    if |members| == 1 then Pair(num, c, s, members[0])
    else exists x, y :: Pair(num, c, x, members[0]) && Members(num, c, y, members[1..]) && s == x + [0x2c] + y
  }

  // ----- the printer writes texts -----

  /** Every number of the tree is printed as a number that reads back. */
  ghost predicate NumbersPrinted(num: Bytes -> bool, c: Codec, v: Json) {
    match v
    case Number(n) => num(c.text(n)) && c.read(c.text(n)) == Some((n, |c.text(n)|))
    case Array(items) => forall i :: 0 <= i < |items| ==> NumbersPrinted(num, c, items[i])
    case Object(members) => forall i :: 0 <= i < |members| ==> NumbersPrinted(num, c, members[i].value)
    case _ => true
  }

  lemma EscapeIsRead(s: Bytes, i: nat, b: Byte)
    requires At(s, i, Escape(b)) && i + |Escape(b)| <= |s|
    ensures GrammarChars(s, i, false) == Then([b], GrammarChars(s, i + |Escape(b)|, false))
  {
    hide Utf8, GrammarUnit;
    AtIndex(s, i, Escape(b));
    assert s[i + 0] == Escape(b)[0];
    if |Escape(b)| > 1 { assert s[i + 1] == Escape(b)[1]; }
    if |Escape(b)| == 6 { ControlUnit(s, i, b); }
  }

  lemma ControlUnit(s: Bytes, i: nat, b: Byte)
    requires b < 32 && At(s, i, [BACKSLASH, LOWER_U, 0x30, 0x30, HexChar(b / 16), HexChar(b % 16)])
    ensures i + 6 <= |s| && GrammarUnit(s, i) == Some(Literal(6, b)) && Utf8(b) == [b]
  {
    AtIndex(s, i, [BACKSLASH, LOWER_U, 0x30, 0x30, HexChar(b / 16), HexChar(b % 16)]);
    assert s[i + 2] == 0x30 && s[i + 3] == 0x30 && s[i + 4] == HexChar(b / 16) && s[i + 5] == HexChar(b % 16);
    assert Unit(s, i + 2) == b;
  }

  lemma {:induction false} CharsWritten(s: Bytes, i: nat, v: Bytes)
    requires At(s, i, EscapeAll(v) + [QUOTE])
    ensures GrammarChars(s, i, false) == Some((v, i + |EscapeAll(v)|))
    decreases v
  {
    hide At, Escape, GrammarChars;
    if v == [] {
      assert EscapeAll(v) + [QUOTE] == [QUOTE];
      QuoteEnds(s, i);
    } else {
      var rest := EscapeAll(v[1..]) + [QUOTE];
      assert EscapeAll(v) + [QUOTE] == Escape(v[0]) + rest;
      AtSplit(s, i, Escape(v[0]), rest);
      AtFits(s, i, Escape(v[0]));
      EscapeIsRead(s, i, v[0]);
      CharsWritten(s, i + |Escape(v[0])|, v[1..]);
      assert [v[0]] + v[1..] == v;
    }
  }

  lemma AtFits(s: Bytes, i: nat, t: Bytes)
    requires At(s, i, t)
    ensures i + |t| <= |s|
  {
  }

  lemma QuoteEnds(s: Bytes, i: nat)
    requires At(s, i, [QUOTE])
    ensures i < |s| && GrammarChars(s, i, false) == Some(([], i))
  {
    AtIndex(s, i, [QUOTE]);
    assert s[i + 0] == QUOTE;
  }

  lemma StringIsWritten(v: Bytes)
    ensures IsString(WriteString(v), v)
  {
    hide EscapeAll, GrammarChars;
    var s := WriteString(v);
    var rest := EscapeAll(v) + [QUOTE];
    assert s == [QUOTE] + rest && s[1..1 + |rest|] == rest;
    CharsWritten(s, 1, v);
  }

  lemma OneElement(num: Bytes -> bool, c: Codec, a: Bytes, t: Bytes, b: Bytes, v: Json)
    requires Space(a) && Text(num, c, t, v) && Space(b)
    ensures Element(num, c, a + t + b, v)
  {
    hide Text, Space;
  }

  /** What the printer writes for a tree is a text of that tree, formatted or not. */
  lemma {:induction false} WriteIsText(num: Bytes -> bool, c: Codec, v: Json, fmt: bool, d: nat)
    requires NumbersPrinted(num, c, v)
    ensures Text(num, c, Write(c, v, fmt, d), v)
    decreases v, 0
  {
    hide IsString, WriteString, WriteItems, WriteMembers, Items, Members;
    match v
    case Null =>
    case False =>
    case True =>
    case Number(_) =>
    case String(x) => StringIsWritten(x);
    case Array(items) =>
      if items == [] {
        NothingWritten(c, fmt, d + 1);
        assert Write(c, v, fmt, d) == [0x5b] + [] + [0x5d] && Space([]);
      } else {
        ItemsWritten(num, c, items, fmt, d + 1, []);
        assert [] + WriteItems(c, items, fmt, d + 1) == WriteItems(c, items, fmt, d + 1);
      }
    case Object(members) =>
      var line, tabs: Bytes := if fmt then [LF] else [], if fmt then Tabs(d) else [];
      if members == [] {
        NothingWritten(c, fmt, d + 1);
        assert Write(c, v, fmt, d) == [0x7b] + (line + tabs) + [0x7d] && Space(line + tabs);
      } else {
        MembersWritten(num, c, members, fmt, d + 1, line, tabs);
        assert Write(c, v, fmt, d) == [0x7b] + (line + WriteMembers(c, members, fmt, d + 1) + tabs) + [0x7d];
      }
  }

  lemma NothingWritten(c: Codec, fmt: bool, d: nat)
    ensures WriteItems(c, [], fmt, d) == [] && WriteMembers(c, [], fmt, d) == []
  {
  }

  lemma {:induction false} ItemsWritten(num: Bytes -> bool, c: Codec, items: seq<Json>, fmt: bool, d: nat, lead: Bytes)
    requires items != [] && Space(lead) && forall i :: 0 <= i < |items| ==> NumbersPrinted(num, c, items[i])
    ensures Items(num, c, lead + WriteItems(c, items, fmt, d), items)
    decreases items
  {
    hide Write, Element, Text, Space;
    var w, rest := Write(c, items[0], fmt, d), WriteItems(c, items[1..], fmt, d);
    NoSpace();
    WriteIsText(num, c, items[0], fmt, d);
    OneElement(num, c, lead, w, [], items[0]);
    var x := lead + w + [];
    if |items| == 1 {
      NothingWritten(c, fmt, d);
      assert items[1..] == [];
      assert lead + WriteItems(c, items, fmt, d) == x;
    } else {
      var next: Bytes := if fmt then [SPACE] else [];
      ItemsWritten(num, c, items[1..], fmt, d, next);
      var y := next + rest;
      assert ItemGap(true, fmt) == [0x2c] + next;
      assert lead + WriteItems(c, items, fmt, d) == x + [0x2c] + y;
    }
  }

  lemma NoSpace()
    ensures Space([]) && Space([SPACE]) && Space([TAB]) && Space([LF])
  {
  }

  lemma {:induction false} MembersWritten(num: Bytes -> bool, c: Codec, members: seq<Member>, fmt: bool, d: nat,
      lead: Bytes, trail: Bytes)
    requires members != [] && Space(lead) && Space(trail)
    requires forall i :: 0 <= i < |members| ==> NumbersPrinted(num, c, members[i].value)
    ensures Members(num, c, lead + WriteMembers(c, members, fmt, d) + trail, members)
    decreases members
  {
    hide Write, Pair, Space, MemberStart, Text;
    var m, w := members[0], Write(c, members[0].value, fmt, d);
    var rest := WriteMembers(c, members[1..], fmt, d);
    var line: Bytes := if fmt then [LF] else [];
    NoSpace();
    WriteIsText(num, c, m.value, fmt, d);
    if |members| == 1 {
      NothingWritten(c, fmt, d);
      assert members[1..] == [];
      SpaceJoined(line, trail);
      PairWritten(num, c, m, w, fmt, d, lead, line + trail);
      LastText(lead, MemberStart(m.key, fmt, d), w, line, trail);
    } else {
      PairWritten(num, c, m, w, fmt, d, lead, []);
      MembersWritten(num, c, members[1..], fmt, d, line, trail);
      var x, y := lead + MemberStart(m.key, fmt, d) + w + [], line + rest + trail;
      assert MemberGap(true, fmt) == [0x2c] + line;
      MoreText(lead, MemberStart(m.key, fmt, d), w, line, rest, trail);
    }
  }

  lemma LastText(lead: Bytes, start: Bytes, w: Bytes, line: Bytes, trail: Bytes)
    ensures lead + (start + w + ([] + line) + []) + trail == lead + start + w + (line + trail)
  {
    assert start + w + ([] + line) + [] == start + w + line;
    assert lead + (start + w + line) == lead + start + w + line;
  }

  lemma MoreText(lead: Bytes, start: Bytes, w: Bytes, line: Bytes, rest: Bytes, trail: Bytes)
    ensures lead + (start + w + ([0x2c] + line) + rest) + trail
      == lead + start + w + [] + [0x2c] + (line + rest + trail)
  {
    var front := lead + start + w;
    assert lead + (start + w + ([0x2c] + line) + rest) == front + ([0x2c] + line) + rest;
    assert front + ([0x2c] + line) == front + [0x2c] + line;
    assert front + [] == front;
    assert front + [0x2c] + line + rest + trail == front + [0x2c] + (line + rest + trail);
  }

  lemma SpaceJoined(a: Bytes, b: Bytes)
    requires Space(a) && Space(b)
    ensures Space(a + b)
  {
  }

  lemma PairWritten(num: Bytes -> bool, c: Codec, m: Member, w: Bytes, fmt: bool, d: nat, lead: Bytes, trail: Bytes)
    requires Space(lead) && Space(trail) && Text(num, c, w, m.value)
    ensures Pair(num, c, lead + MemberStart(m.key, fmt, d) + w + trail, m)
  {
    hide Text, WriteString, IsString, Element, Space, Pair, MemberStart;
    var tabs, tab: Bytes := if fmt then Tabs(d) else [], if fmt then [TAB] else [];
    var k := WriteString(m.key);
    StringIsWritten(m.key);
    NoSpace();
    TabsAreSpace(d);
    OneElement(num, c, tab, w, trail, m.value);
    SpaceJoined(lead, tabs);
    StartIs(m.key, tabs, tab, fmt, d);
    PairText(lead, tabs, k, tab, w, trail);
    OnePair(num, c, lead + tabs, k, [], tab + w + trail, m);
  }

  lemma OnePair(num: Bytes -> bool, c: Codec, a: Bytes, k: Bytes, b: Bytes, e: Bytes, m: Member)
    requires Space(a) && IsString(k, m.key) && Space(b) && Element(num, c, e, m.value)
    ensures Pair(num, c, a + k + b + [0x3a] + e, m)
  {
    hide IsString, Element, Space;
  }

  lemma TabsAreSpace(d: nat)
    ensures Space(Tabs(d))
  {
  }

  lemma StartIs(key: Bytes, tabs: Bytes, tab: Bytes, fmt: bool, d: nat)
    requires tabs == (if fmt then Tabs(d) else []) && tab == if fmt then [TAB] else []
    ensures MemberStart(key, fmt, d) == tabs + WriteString(key) + ([0x3a] + tab)
  {
    hide WriteString, Tabs;
  }

  lemma PairText(lead: Bytes, tabs: Bytes, k: Bytes, tab: Bytes, w: Bytes, trail: Bytes)
    ensures lead + (tabs + k + ([0x3a] + tab)) + w + trail == lead + tabs + k + [] + [0x3a] + (tab + w + trail)
  {
    var front := lead + tabs + k + [0x3a];
    assert lead + (tabs + k + ([0x3a] + tab)) == front + tab;
    assert lead + tabs + k + [] + [0x3a] == front;
    assert front + tab + w + trail == front + (tab + w + trail);
  }

  // ----- a text is a C string -----

  /** White space around a value of the RFC: a JSON text. */
  ghost predicate IsJson(c: Codec, s: Bytes, v: Json) { Element(s => IsNumber(s), c, s, v) }

  /** With numbers as the RFC has them, every text that the printer writes is JSON. */
  lemma WriteIsJson(c: Codec, v: Json, fmt: bool)
    requires NumbersPrinted(s => IsNumber(s), c, v)
    ensures IsJson(c, Write(c, v, fmt, 0), v)
  {
    hide Text, Write, NumbersPrinted, IsNumber;
    var num := s => IsNumber(s);
    WriteIsText(num, c, v, fmt, 0);
    var w := Write(c, v, fmt, 0);
    NoSpace();
    OneElement(num, c, [], w, [], v);
    assert [] + w + [] == w;
  }
}
