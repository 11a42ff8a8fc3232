/**
 The parser (src/cJSON.c) reads every JSON text of RFC 8259 as the value that it is a text of,
 up to the nesting limit, numbers of at most 63 bytes, and strings cut at their first NUL.
 */
module JsonConform {
  import opened Basics
  import opened JsonText
  import opened JsonTree
  import opened JsonGrammar
  import opened JsonSyntax

  /** Arrays and objects inside each other. */
  function Nesting(v: Json): nat {
    match v
    case Array(items) => 1 + ItemNesting(items)
    case Object(members) => 1 + MemberNesting(members)
    case _ => 0
  }

  function ItemNesting(items: seq<Json>): nat {
    if items == [] then 0 else Max(Nesting(items[0]), ItemNesting(items[1..]))
  }

  function MemberNesting(members: seq<Member>): nat {
    if members == [] then 0 else Max(Nesting(members[0].value), MemberNesting(members[1..]))
  }

  /** A tree as C strings can hold it. */
  function Cut(v: Json): Json {
    match v
    case String(x) => String(UpToNul(x))
    case Array(items) => Array(CutItems(items))
    case Object(members) => Object(CutMembers(members))
    case _ => v
  }

  function CutItems(items: seq<Json>): seq<Json> {
    if items == [] then [] else [Cut(items[0])] + CutItems(items[1..])
  }

  function CutMembers(members: seq<Member>): seq<Member> {
    if members == [] then []
    else [Member(UpToNul(members[0].key), Cut(members[0].value))] + CutMembers(members[1..])
  }

  /** What the parser takes for the text of a number. */
  predicate Numeric(t: Bytes) {
    0 < |t| <= 63 && NumberStart(t[0]) && forall k :: 0 <= k < |t| ==> NumberChar(t[k])
  }

  ghost predicate AllNumeric(num: Bytes -> bool) { forall t :: num(t) ==> Numeric(t) }

  // ----- white space and first bytes -----

  lemma {:induction false} SkipOver(s: Bytes, i: nat, n: nat)
    requires i + n < |s| && (s[i + n] > 32 || i + n == |s| - 1) && forall k :: i <= k < i + n ==> s[k] <= 32
    ensures Skip(s, i) == i + n
    decreases n
  {
    if n > 0 { SkipOver(s, i + 1, n - 1); }
  }

  lemma SpaceSkipped(s: Bytes, i: nat, w: Bytes)
    requires At(s, i, w) && Space(w) && i + |w| < |s| && (s[i + |w|] > 32 || i + |w| == |s| - 1)
    ensures Skip(s, i) == i + |w|
  {
    AtIndex(s, i, w);
    forall k | i <= k < i + |w| ensures s[k] <= 32 { assert s[i + (k - i)] == w[k - i]; }
    SkipOver(s, i, |w|);
  }

  lemma AtFirst(s: Bytes, i: nat, t: Bytes)
    requires At(s, i, t) && |t| > 0
    ensures i < |s| && s[i] == t[0] && i + |t| <= |s|
  {
    AtIndex(s, i, t);
    assert s[i + 0] == t[0];
  }

  /** Every text starts with a byte that tells what it is. */
  predicate StartsLike(v: Json, b: Byte) {
    match v
    case Null => b == 0x6e
    case False => b == 0x66
    case True => b == 0x74
    case Number(_) => NumberStart(b)
    case String(_) => b == QUOTE
    case Array(_) => b == OPEN_ARRAY
    case Object(_) => b == OPEN_OBJECT
  }

  lemma TextStarts(num: Bytes -> bool, c: Codec, t: Bytes, v: Json)
    requires AllNumeric(num) && Text(num, c, t, v)
    ensures |t| > 0 && StartsLike(v, t[0]) && t[0] > 32
  {
    hide Items, Members, GrammarChars;
  }

  lemma Keyword(s: Bytes, i: nat)
    requires i < |s|
    ensures At(s, i, NULL_TEXT) ==> s[i] == 0x6e
    ensures At(s, i, FALSE_TEXT) ==> s[i] == 0x66
    ensures At(s, i, TRUE_TEXT) ==> s[i] == 0x74
  {
    if At(s, i, NULL_TEXT) { AtFirst(s, i, NULL_TEXT); }
    if At(s, i, FALSE_TEXT) { AtFirst(s, i, FALSE_TEXT); }
    if At(s, i, TRUE_TEXT) { AtFirst(s, i, TRUE_TEXT); }
  }

  /** Which branch the parser takes. */
  lemma Dispatch(c: Codec, s: Bytes, i: nat, v: Json, depth: nat)
    requires Terminated(s) && i < |s| && StartsLike(v, s[i])
    ensures v.Null? && At(s, i, NULL_TEXT) ==> Read(c, s, i, depth) == Some((Null, i + 4))
    ensures v.False? && At(s, i, FALSE_TEXT) ==> Read(c, s, i, depth) == Some((False, i + 5))
    ensures v.True? && At(s, i, TRUE_TEXT) ==> Read(c, s, i, depth) == Some((True, i + 4))
    ensures v.String? ==>
      Read(c, s, i, depth) == match ReadString(s, i) case None => None
        case Some((bytes, j)) => Some((String(UpToNul(bytes)), j))
    ensures v.Number? ==> Read(c, s, i, depth) == ReadNumber(c, s, i)
    ensures v.Array? ==> Read(c, s, i, depth) == ReadArray(c, s, i, depth)
    ensures v.Object? ==> Read(c, s, i, depth) == ReadObject(c, s, i, depth)
  {
    hide At, ReadString, ReadNumber, ReadArray, ReadObject, UpToNul;
    Keyword(s, i);
  }

  /** Nothing else starts a value. */
  lemma OtherStartsRefused(c: Codec, s: Bytes, i: nat, depth: nat)
    requires Terminated(s) && i < |s| && !(0x30 <= s[i] <= 0x39)
    requires s[i] !in {0x22, 0x2d, 0x5b, 0x66, 0x6e, 0x74, 0x7b}
    ensures Read(c, s, i, depth) == None
  {
    hide At, ReadString, ReadNumber, ReadArray, ReadObject, UpToNul;
    Keyword(s, i);
  }

  /** What the parser passes over as white space: bytes up to a space, more than the grammar allows. */
  lemma SkippedBytes(s: Bytes, i: nat)
    requires i < |s|
    ensures forall k :: i <= k < Skip(s, i) ==> s[k] <= 0x20
    ensures s[Skip(s, i)] > 0x20 || Skip(s, i) == |s| - 1
    decreases |s| - i
  {
    if i + 1 < |s| { SkippedBytes(s, i + 1); }
  }

  // ----- numbers and strings -----

  /** A number's text ends in front of the first byte that no number contains, or is 63 bytes long. */
  lemma NumberEnds(s: Bytes, i: nat)
    requires i <= |s|
    ensures var n := NumberRun(s, i, 0);
      && (forall k :: i <= k < i + n ==> 0x30 <= s[k] <= 0x39 || s[k] in {0x2b, 0x2d, 0x2e, 0x45, 0x65})
      && (n < 63 && i + n < |s| ==> !(0x30 <= s[i + n] <= 0x39) && s[i + n] !in {0x2b, 0x2d, 0x2e, 0x45, 0x65})
  {
    NumberStops(s, i, 0);
  }

  lemma {:induction false} NumberStops(s: Bytes, i: nat, n: nat)
    requires i + n <= |s| && n <= 63 && forall k :: i <= k < i + n ==> NumberChar(s[k])
    ensures var m := NumberRun(s, i, n); m < 63 && i + m < |s| ==> !NumberChar(s[i + m])
    decreases 63 - n
  {
    if n < 63 && i + n < |s| && NumberChar(s[i + n]) { NumberStops(s, i, n + 1); }
  }

  lemma {:induction false} RunIs(s: Bytes, i: nat, n: nat, m: nat)
    requires n <= m <= 63 && i + m < |s| && !NumberChar(s[i + m]) && forall k :: i <= k < i + m ==> NumberChar(s[k])
    ensures NumberRun(s, i, n) == m
    decreases m - n
  {
    if n < m { RunIs(s, i, n + 1, m); }
  }

  lemma NumberIsRead(c: Codec, s: Bytes, i: nat, t: Bytes, n: nat)
    requires Terminated(s) && Numeric(t) && c.read(t) == Some((n, |t|)) && At(s, i, t) && i + |t| < |s|
    requires !NumberChar(s[i + |t|])
    ensures ReadNumber(c, s, i) == Some((Number(n), i + |t|))
  {
    hide NumberChar, NumberStart, NumberRun;
    AtIndex(s, i, t);
    forall k | i <= k < i + |t| ensures NumberChar(s[k]) { assert s[i + (k - i)] == t[k - i]; }
    RunIs(s, i, 0, |t|);
  }

  /** A string of the grammar is one wherever its text stands. */
  lemma {:induction false} CharsMoved(t: Bytes, k: nat, s: Bytes, i: nat)
    requires At(s, i, t) && k <= |t| && GrammarChars(t, k, false).Some?
    ensures i + |t| <= |s| && GrammarChars(s, i + k, false)
      == Some((GrammarChars(t, k, false).value.0, i + GrammarChars(t, k, false).value.1))
    decreases |t| - k
  {
    hide GrammarUnit, GrammarEscape, Utf8, At;
    AtIndexAll(s, i, t);
    if t[k] == QUOTE {
    } else if t[k] != BACKSLASH {
      CharsMoved(t, k + 1, s, i);
    } else if t[k + 1] == LOWER_U {
      UnitMoved(t, k, s, i);
      CharsMoved(t, k + GrammarUnit(t, k).value.length, s, i);
    } else {
      CharsMoved(t, k + 2, s, i);
    }
  }

  lemma AtIndexAll(s: Bytes, i: nat, t: Bytes)
    requires At(s, i, t)
    ensures i + |t| <= |s| && forall k :: 0 <= k < |t| ==> t[k] == s[i + k]
  {
    AtIndex(s, i, t);
  }

  lemma UnitMoved(t: Bytes, k: nat, s: Bytes, i: nat)
    requires At(s, i, t) && GrammarUnit(t, k).Some?
    ensures GrammarUnit(s, i + k) == GrammarUnit(t, k)
  {
    hide At, Hexadecimal;
    AtIndexAll(s, i, t);
  }

  lemma StringIsRead(s: Bytes, i: nat, t: Bytes, v: Bytes)
    requires IsString(t, v) && At(s, i, t)
    ensures i < |s| && ReadString(s, i) == Some((v, i + |t|))
  {
    hide GrammarChars, At, ReadString;
    AtIndexAll(s, i, t);
    CharsMoved(t, 1, s, i);
    GrammarStringRead(s, i, false);
  }

  /** Reading a written string, wherever it stands, gives the string back. */
  lemma StringRoundTrip(s: Bytes, i: nat, v: Bytes)
    requires At(s, i, WriteString(v))
    ensures i < |s| && ReadString(s, i) == Some((v, i + |WriteString(v)|))
  {
    hide At, ReadString, WriteString, IsString;
    StringIsWritten(v);
    StringIsRead(s, i, WriteString(v), v);
  }

  // ----- values -----

  /** A text of a value, wherever it stands in a buffer, is read as that value. */
  lemma {:induction false} TextIsRead(num: Bytes -> bool, c: Codec, s: Bytes, i: nat, t: Bytes, v: Json, depth: nat)
    requires Terminated(s) && AllNumeric(num) && Text(num, c, t, v) && At(s, i, t) && i + |t| < |s|
    requires !NumberChar(s[i + |t|]) && depth + Nesting(v) <= NESTING_LIMIT
    ensures i < |s| && Read(c, s, i, depth) == Some((Cut(v), i + |t|))
    decreases v, 0
  {
    hide At, Read, ReadString, ReadArray, ReadObject, ReadNumber, Items, Members, IsString, Space, Numeric;
    TextStarts(num, c, t, v);
    AtFirst(s, i, t);
    Dispatch(c, s, i, v, depth);
    match v
    case Null =>
    case False =>
    case True =>
    case Number(n) => NumberIsRead(c, s, i, t, n);
    case String(x) => StringIsRead(s, i, t, x);
    case Array(items) =>
      if items == [] {
        var w :| Space(w) && t == [0x5b] + w + [0x5d];
        EmptyIsRead(c, s, i, w, 0x5b, 0x5d, depth);
      } else {
        var u :| Items(num, c, u, items) && t == [0x5b] + u + [0x5d];
        ArrayIsRead(num, c, s, i, u, items, depth);
      }
    case Object(members) =>
      if members == [] {
        var w :| Space(w) && t == [0x7b] + w + [0x7d];
        EmptyIsRead(c, s, i, w, 0x7b, 0x7d, depth);
      } else {
        var u :| Members(num, c, u, members) && t == [0x7b] + u + [0x7d];
        ObjectIsRead(num, c, s, i, u, members, depth);
      }
  }

  lemma EmptyIsRead(c: Codec, s: Bytes, i: nat, w: Bytes, open: Byte, close: Byte, depth: nat)
    requires Terminated(s) && At(s, i, [open] + w + [close]) && Space(w) && depth < NESTING_LIMIT && close > 32
    ensures i < |s| && s[i] == open
    ensures open == OPEN_ARRAY && close == CLOSE_ARRAY ==>
      ReadArray(c, s, i, depth) == Some((Array([]), i + |w| + 2))
    ensures open == OPEN_OBJECT && close == CLOSE_OBJECT ==>
      ReadObject(c, s, i, depth) == Some((Object([]), i + |w| + 2))
  {
    hide At, Space, Skip, ReadItems, ReadMembers;
    Bracketed(s, i, open, w, close);
    SpaceSkipped(s, i + 1, w);
  }

  lemma Bracketed(s: Bytes, i: nat, open: Byte, w: Bytes, close: Byte)
    requires At(s, i, [open] + w + [close])
    ensures At(s, i + 1, w) && i + |w| + 1 < |s| && s[i] == open && s[i + 1 + |w|] == close
  {
    hide At;
    assert [open] + w + [close] == [open] + (w + [close]);
    AtSplit(s, i, [open], w + [close]);
    AtSplit(s, i + 1, w, [close]);
    AtFirst(s, i, [open]);
    AtFirst(s, i + 1 + |w|, [close]);
  }

  /** A value with white space around it, up to the next visible byte or the end of the buffer. */
  lemma {:induction false} ElementIsRead(num: Bytes -> bool, c: Codec, s: Bytes, i: nat, t: Bytes, v: Json, depth: nat)
      returns (h: nat, j: nat)
    requires Terminated(s) && AllNumeric(num) && Element(num, c, t, v) && At(s, i, t) && i + |t| < |s|
    requires (s[i + |t|] > 32 || i + |t| == |s| - 1) && !NumberChar(s[i + |t|])
    requires depth + Nesting(v) <= NESTING_LIMIT
    ensures i <= h < |s| && h == Skip(s, i) && StartsLike(v, s[h])
    ensures Read(c, s, h, depth) == Some((Cut(v), j)) && j < |s| && Skip(s, j) == i + |t|
    decreases v, 1
  {
    hide At, Read, Text, Space, Skip, Nesting, StartsLike, NumberChar;
    var a, u, b :| Space(a) && Text(num, c, u, v) && Space(b) && t == a + u + b;
    assert t == a + (u + b);
    AtSplit(s, i, a, u + b);
    AtSplit(s, i + |a|, u, b);
    TextStarts(num, c, u, v);
    h, j := i + |a|, i + |a| + |u|;
    AtFirst(s, h, u);
    SpaceSkipped(s, i, a);
    SpaceSkipped(s, j, b);
    AfterText(s, j, b);
    TextIsRead(num, c, s, h, u, v, depth);
  }

  lemma AfterText(s: Bytes, j: nat, b: Bytes)
    requires At(s, j, b) && Space(b) && j + |b| < |s| && !NumberChar(s[j + |b|])
    ensures !NumberChar(s[j])
  {
    if b != [] { AtFirst(s, j, b); }
  }

  lemma {:induction false} ArrayIsRead(num: Bytes -> bool, c: Codec, s: Bytes, i: nat, u: Bytes, items: seq<Json>,
      depth: nat)
    requires Terminated(s) && AllNumeric(num) && items != [] && Items(num, c, u, items)
    requires At(s, i, [OPEN_ARRAY] + u + [CLOSE_ARRAY]) && depth + 1 + ItemNesting(items) <= NESTING_LIMIT
    ensures i < |s| && s[i] == OPEN_ARRAY
    ensures ReadArray(c, s, i, depth) == Some((Array(CutItems(items)), i + |u| + 2))
    decreases items, 1
  {
    hide At, Items, Skip, ReadItems, ItemNesting, StartsLike;
    Bracketed(s, i, OPEN_ARRAY, u, CLOSE_ARRAY);
    ItemsAreRead(num, c, s, i, u, items, depth + 1);
    var j := Skip(s, i + 1);
    NotClosed(items[0], s[j]);
    SkipAgain(s, j);
    ItemsFrom(c, s, i, j - 1, depth + 1);
  }

  lemma NotClosed(v: Json, b: Byte)
    requires StartsLike(v, b)
    ensures b != CLOSE_ARRAY && b != CLOSE_OBJECT && b > 32
  {
  }

  lemma SkipAgain(s: Bytes, j: nat)
    requires j < |s| && s[j] > 32
    ensures Skip(s, j) == j
  {
  }

  /** Only the position behind the white space counts. */
  lemma ItemsFrom(c: Codec, s: Bytes, i: nat, j: nat, depth: nat)
    requires Terminated(s) && i + 1 < |s| && j + 1 < |s| && Skip(s, i + 1) == Skip(s, j + 1)
    ensures ReadItems(c, s, i, depth) == ReadItems(c, s, j, depth)
    ensures ReadName(s, i) == ReadName(s, j) && ReadMembers(c, s, i, depth) == ReadMembers(c, s, j, depth)
  {
    hide Read, Skip, ReadString, UpToNul;
  }

  lemma {:induction false} ItemsAreRead(num: Bytes -> bool, c: Codec, s: Bytes, i: nat, t: Bytes, items: seq<Json>,
      depth: nat)
    requires Terminated(s) && AllNumeric(num) && items != [] && Items(num, c, t, items)
    requires At(s, i + 1, t) && i + 1 + |t| < |s| && s[i + 1 + |t|] == CLOSE_ARRAY
    requires depth + ItemNesting(items) <= NESTING_LIMIT
    ensures ReadItems(c, s, i, depth) == Some((CutItems(items), i + |t| + 2))
    ensures Skip(s, i + 1) < |s| && StartsLike(items[0], s[Skip(s, i + 1)])
    decreases items, 0
  {
    hide At, Skip, Read, Element, Nesting, StartsLike, ReadItems, Cut, CutItems, NumberChar, ItemNesting, Items;
    Closers();
    FirstItem(items);
    ItemsNest(items);
    if |items| == 1 {
      OneItem(num, c, t, items);
      var h, j := ElementIsRead(num, c, s, i + 1, t, items[0], depth);
      ItemsStep(c, s, i, depth, h, Cut(items[0]), j);
    } else {
      var x, y := SplitItems(num, c, t, items);
      AtSplit(s, i + 1, x, [COMMA] + y);
      var k := i + 1 + |x|;
      AtFirst(s, k, [COMMA] + y);
      AtSplit(s, k, [COMMA], y);
      var h, j := ElementIsRead(num, c, s, i + 1, x, items[0], depth);
      ItemsAreRead(num, c, s, k, y, items[1..], depth);
      ItemsStep(c, s, i, depth, h, Cut(items[0]), j);
    }
  }

  lemma FirstItem(items: seq<Json>)
    requires items != []
    ensures CutItems(items) == [Cut(items[0])] + CutItems(items[1..])
    ensures |items| == 1 ==> CutItems(items) == [Cut(items[0])]
  {
    hide Cut;
    if |items| == 1 {
      assert items[1..] == [];
      assert [Cut(items[0])] + [] == [Cut(items[0])];
    }
  }

  lemma ItemsNest(items: seq<Json>)
    requires items != []
    ensures Nesting(items[0]) <= ItemNesting(items) && ItemNesting(items[1..]) <= ItemNesting(items)
  {
    hide Nesting;
  }

  lemma SplitItems(num: Bytes -> bool, c: Codec, t: Bytes, items: seq<Json>) returns (x: Bytes, y: Bytes)
    requires |items| > 1 && Items(num, c, t, items)
    ensures Element(num, c, x, items[0]) && Items(num, c, y, items[1..]) && t == x + ([COMMA] + y)
  {
    hide Element;
    x, y :| Element(num, c, x, items[0]) && Items(num, c, y, items[1..]) && t == x + [0x2c] + y;
    assert x + [0x2c] + y == x + ([COMMA] + y);
  }

  lemma OneItem(num: Bytes -> bool, c: Codec, t: Bytes, items: seq<Json>)
    requires |items| == 1 && Items(num, c, t, items)
    ensures Element(num, c, t, items[0])
  {
  }

  lemma FirstMember(members: seq<Member>)
    requires members != []
    ensures var m := Member(UpToNul(members[0].key), Cut(members[0].value));
      && CutMembers(members) == [m] + CutMembers(members[1..])
      && (|members| == 1 ==> CutMembers(members) == [m])
  {
    hide Cut, UpToNul;
    if |members| == 1 {
      assert members[1..] == [];
      var m := Member(UpToNul(members[0].key), Cut(members[0].value));
      assert [m] + [] == [m];
    }
  }

  lemma MembersNest(members: seq<Member>)
    requires members != []
    ensures Nesting(members[0].value) <= MemberNesting(members) && MemberNesting(members[1..]) <= MemberNesting(members)
  {
    hide Nesting;
  }

  lemma SplitMembers(num: Bytes -> bool, c: Codec, t: Bytes, members: seq<Member>) returns (x: Bytes, y: Bytes)
    requires |members| > 1 && Members(num, c, t, members)
    ensures Pair(num, c, x, members[0]) && Members(num, c, y, members[1..]) && t == x + ([COMMA] + y)
  {
    hide Pair;
    x, y :| Pair(num, c, x, members[0]) && Members(num, c, y, members[1..]) && t == x + [0x2c] + y;
    assert x + [0x2c] + y == x + ([COMMA] + y);
  }

  lemma Closers()
    ensures !NumberChar(COMMA) && !NumberChar(CLOSE_ARRAY) && !NumberChar(CLOSE_OBJECT) && !NumberChar(NUL)
  {
  }

  lemma ItemsStep(c: Codec, s: Bytes, i: nat, depth: nat, h: nat, v: Json, j: nat)
    requires Terminated(s) && i + 1 < |s| && h == Skip(s, i + 1) && Read(c, s, h, depth) == Some((v, j)) && j < |s|
    ensures var k := Skip(s, j);
      && (s[k] == CLOSE_ARRAY ==> ReadItems(c, s, i, depth) == Some(([v], k + 1)))
      && (s[k] == COMMA && k + 1 < |s| && ReadItems(c, s, k, depth).Some? ==>
        ReadItems(c, s, i, depth)
          == Some(([v] + ReadItems(c, s, k, depth).value.0, ReadItems(c, s, k, depth).value.1)))
  {
    hide Read, Skip;
  }

  // ----- objects -----

  lemma {:induction false} ObjectIsRead(num: Bytes -> bool, c: Codec, s: Bytes, i: nat, u: Bytes,
      members: seq<Member>, depth: nat)
    requires Terminated(s) && AllNumeric(num) && members != [] && Members(num, c, u, members)
    requires At(s, i, [OPEN_OBJECT] + u + [CLOSE_OBJECT]) && depth + 1 + MemberNesting(members) <= NESTING_LIMIT
    ensures i < |s| && s[i] == OPEN_OBJECT
    ensures ReadObject(c, s, i, depth) == Some((Object(CutMembers(members)), i + |u| + 2))
    decreases members, 3
  {
    hide At, Members, Skip, ReadMembers, MemberNesting;
    Bracketed(s, i, OPEN_OBJECT, u, CLOSE_OBJECT);
    MembersAreRead(num, c, s, i, u, members, depth + 1);
    var j := Skip(s, i + 1);
    SkipAgain(s, j);
    ItemsFrom(c, s, i, j - 1, depth + 1);
  }

  /** One name and its value. */
  lemma {:induction false} PairIsRead(num: Bytes -> bool, c: Codec, s: Bytes, i: nat, t: Bytes, m: Member, depth: nat)
      returns (h: nat, j: nat)
    requires Terminated(s) && AllNumeric(num) && Pair(num, c, t, m) && At(s, i + 1, t) && i + 1 + |t| < |s|
    requires s[i + 1 + |t|] > 32 && !NumberChar(s[i + 1 + |t|]) && depth + Nesting(m.value) <= NESTING_LIMIT
    ensures Skip(s, i + 1) < |s| && s[Skip(s, i + 1)] == QUOTE
    ensures ReadName(s, i) == Some((UpToNul(m.key), h)) && h < |s|
    ensures Read(c, s, h, depth) == Some((Cut(m.value), j)) && j < |s| && Skip(s, j) == i + 1 + |t|
    decreases m, 1
  {
    hide At, Read, Element, Space, Skip, Nesting, StartsLike, IsString, NumberChar, ReadName, UpToNul, Cut;
    var a, k, b, e :| Space(a) && IsString(k, m.key) && Space(b) && Element(num, c, e, m.value)
      && t == a + k + b + [0x3a] + e;
    Rearranged(a, k, b, e);
    var l := NameIsRead(s, i, a, k, b, e, m.key);
    h, j := ElementIsRead(num, c, s, l + 1, e, m.value, depth);
  }

  lemma NameIsRead(s: Bytes, i: nat, a: Bytes, k: Bytes, b: Bytes, e: Bytes, key: Bytes) returns (l: nat)
    requires Terminated(s) && Space(a) && IsString(k, key) && Space(b)
    requires At(s, i + 1, a + (k + (b + ([COLON] + e)))) && i + 1 + |a + (k + (b + ([COLON] + e)))| < |s|
    ensures Skip(s, i + 1) < |s| && s[Skip(s, i + 1)] == QUOTE
    ensures l == i + 1 + |a| + |k| + |b| && l + 1 < |s| && At(s, l + 1, e)
    ensures ReadName(s, i) == Some((UpToNul(key), Skip(s, l + 1)))
  {
    hide At, Space, Skip, IsString, ReadString, UpToNul;
    var rest := [COLON] + e;
    AtSplit(s, i + 1, a, k + (b + rest));
    AtSplit(s, i + 1 + |a|, k, b + rest);
    AtSplit(s, i + 1 + |a| + |k|, b, rest);
    var q := i + 1 + |a|;
    l := q + |k| + |b|;
    StringStarts(k, key);
    AtFirst(s, q, k);
    SpaceSkipped(s, i + 1, a);
    StringIsRead(s, q, k, key);
    AtFirst(s, l, rest);
    SpaceSkipped(s, q + |k|, b);
    AtSplit(s, l, [COLON], e);
  }

  lemma Rearranged(a: Bytes, k: Bytes, b: Bytes, e: Bytes)
    ensures a + k + b + [0x3a] + e == a + (k + (b + ([0x3a] + e)))
  {
    assert b + [0x3a] + e == b + ([0x3a] + e);
    assert a + k + b + [0x3a] + e == a + k + (b + [0x3a] + e);
    assert a + k + (b + ([0x3a] + e)) == a + (k + (b + ([0x3a] + e)));
  }

  lemma StringStarts(t: Bytes, v: Bytes)
    requires IsString(t, v)
    ensures |t| > 0 && t[0] == QUOTE
  {
    hide GrammarChars;
  }

  lemma {:induction false} MembersAreRead(num: Bytes -> bool, c: Codec, s: Bytes, i: nat, t: Bytes,
      members: seq<Member>, depth: nat)
    requires Terminated(s) && AllNumeric(num) && members != [] && Members(num, c, t, members)
    requires At(s, i + 1, t) && i + 1 + |t| < |s| && s[i + 1 + |t|] == CLOSE_OBJECT
    requires depth + MemberNesting(members) <= NESTING_LIMIT
    ensures ReadMembers(c, s, i, depth) == Some((CutMembers(members), i + |t| + 2))
    ensures Skip(s, i + 1) < |s| && s[Skip(s, i + 1)] == QUOTE
    decreases members, 2
  {
    hide At, Skip, Read, Pair, Nesting, ReadMembers, ReadName, Cut, CutMembers, NumberChar, UpToNul,
      MemberNesting;
    Closers();
    FirstMember(members);
    MembersNest(members);
    var m := members[0];
    if |members| == 1 {
      var h, j := PairIsRead(num, c, s, i, t, m, depth);
      MembersStep(c, s, i, depth, UpToNul(m.key), h, Cut(m.value), j);
    } else {
      var x, y := SplitMembers(num, c, t, members);
      AtSplit(s, i + 1, x, [COMMA] + y);
      var k := i + 1 + |x|;
      AtFirst(s, k, [COMMA] + y);
      AtSplit(s, k, [COMMA], y);
      var h, j := PairIsRead(num, c, s, i, x, m, depth);
      MembersAreRead(num, c, s, k, y, members[1..], depth);
      MembersStep(c, s, i, depth, UpToNul(m.key), h, Cut(m.value), j);
    }
  }

  lemma MembersStep(c: Codec, s: Bytes, i: nat, depth: nat, key: Bytes, h: nat, v: Json, j: nat)
    requires Terminated(s) && i + 1 < |s| && ReadName(s, i) == Some((key, h)) && h < |s|
    requires Read(c, s, h, depth) == Some((v, j)) && j < |s|
    ensures var k := Skip(s, j);
      && (s[k] == CLOSE_OBJECT ==> ReadMembers(c, s, i, depth) == Some(([Member(key, v)], k + 1)))
      && (s[k] == COMMA && k + 1 < |s| && ReadMembers(c, s, k, depth).Some? ==>
        ReadMembers(c, s, i, depth)
          == Some(([Member(key, v)] + ReadMembers(c, s, k, depth).value.0, ReadMembers(c, s, k, depth).value.1)))
  {
    hide Read, Skip, ReadName;
  }

  // ----- whole texts -----

  /** A number of the RFC that fits the parser's buffer. */
  ghost predicate ShortNumber(t: Bytes) { IsNumber(t) && |t| <= 63 }

  lemma DigitsNumeric(t: Bytes)
    requires Digits(t)
    ensures forall k :: 0 <= k < |t| ==> NumberChar(t[k])
  {
  }

  lemma NumberIsNumeric(t: Bytes)
    requires ShortNumber(t)
    ensures Numeric(t)
  {
    hide NumberChar, IntPart, FracPart, ExpPart;
    var a, b, e :| IntPart(a) && FracPart(b) && ExpPart(e) && (t == a + b + e || t == [0x2d] + (a + b + e));
    PartsNumeric(a, b, e);
    Signs();
    var u := a + b + e;
    forall k | 0 <= k < |u| ensures NumberChar(u[k]) {
      if k < |a| {
        assert u[k] == a[k];
      } else if k < |a| + |b| {
        assert u[k] == b[k - |a|];
      } else {
        assert u[k] == e[k - |a| - |b|];
      }
    }
    forall k | 0 <= k < |t| ensures NumberChar(t[k]) {
      if t != u && k > 0 { assert t[k] == u[k - 1]; }
    }
    assert u[0] == a[0];
  }

  lemma Signs()
    ensures NumberChar(0x2d) && NumberStart(0x2d)
  {
  }

  lemma PartsNumeric(a: Bytes, b: Bytes, e: Bytes)
    requires IntPart(a) && FracPart(b) && ExpPart(e)
    ensures |a| > 0 && NumberStart(a[0])
    ensures forall k :: 0 <= k < |a| ==> NumberChar(a[k])
    ensures forall k :: 0 <= k < |b| ==> NumberChar(b[k])
    ensures forall k :: 0 <= k < |e| ==> NumberChar(e[k])
  {
    hide Digits, NumberChar;
    DigitsNumeric(a);
    FirstDigit(a);
    Marks();
    if b != [] {
      DigitsNumeric(b[1..]);
      forall k | 0 <= k < |b| ensures NumberChar(b[k]) { if k > 0 { assert b[k] == b[1..][k - 1]; } }
    }
    if e != [] {
      var n := if e[1] in {0x2b, 0x2d} then 2 else 1;
      DigitsNumeric(e[n..]);
      forall k | 0 <= k < |e| ensures NumberChar(e[k]) { if k >= n { assert e[k] == e[n..][k - n]; } }
    }
  }

  lemma FirstDigit(a: Bytes)
    requires Digits(a)
    ensures |a| > 0 && NumberStart(a[0])
  {
  }

  lemma Marks()
    ensures NumberChar(0x2e) && NumberChar(0x45) && NumberChar(0x65) && NumberChar(0x2b) && NumberChar(0x2d)
  {
  }

  lemma StringNulFree(t: Bytes, v: Bytes)
    requires IsString(t, v)
    ensures NulFree(t)
  {
    hide GrammarChars, StringEnd, Unescape, Clean;
    GrammarStringRead(t, 0, false);
    AcceptedIffClean(t, 0);
    forall k | 0 <= k < |t| ensures t[k] != NUL {
      if 0 < k < |t| - 1 { assert t[k] >= 0x20; }
    }
  }

  lemma NulFreeJoined(a: Bytes, b: Bytes)
    requires NulFree(a) && NulFree(b)
    ensures NulFree(a + b)
  {
  }

  lemma SpaceNulFree(a: Bytes)
    requires Space(a)
    ensures NulFree(a)
  {
  }

  lemma NumericNulFree(t: Bytes)
    requires Numeric(t)
    ensures NulFree(t)
  {
  }

  /** A text contains no NUL, so strlen sees all of it. */
  lemma {:induction false} TextNulFree(num: Bytes -> bool, c: Codec, t: Bytes, v: Json)
    requires AllNumeric(num) && Text(num, c, t, v)
    ensures NulFree(t)
    decreases v, 0
  {
    hide NulFree, Items, Members, IsString, Space, Numeric;
    match v
    case Null => WordsNulFree();
    case False => WordsNulFree();
    case True => WordsNulFree();
    case Number(n) => NumericNulFree(t);
    case String(x) => StringNulFree(t, x);
    case Array(items) =>
      if items == [] {
        var w :| Space(w) && t == [0x5b] + w + [0x5d];
        SpaceNulFree(w);
        BracketsNulFree(w);
      } else {
        var u :| Items(num, c, u, items) && t == [0x5b] + u + [0x5d];
        ItemsNulFree(num, c, u, items);
        BracketsNulFree(u);
      }
    case Object(members) =>
      if members == [] {
        var w :| Space(w) && t == [0x7b] + w + [0x7d];
        SpaceNulFree(w);
        BracketsNulFree(w);
      } else {
        var u :| Members(num, c, u, members) && t == [0x7b] + u + [0x7d];
        MembersNulFree(num, c, u, members);
        BracketsNulFree(u);
      }
  }

  lemma WordsNulFree()
    ensures NulFree([0x6e, 0x75, 0x6c, 0x6c]) && NulFree([0x66, 0x61, 0x6c, 0x73, 0x65])
    ensures NulFree([0x74, 0x72, 0x75, 0x65])
  {
  }

  lemma BracketsNulFree(u: Bytes)
    requires NulFree(u)
    ensures NulFree([0x5b] + u + [0x5d]) && NulFree([0x7b] + u + [0x7d])
    ensures NulFree([COMMA] + u) && NulFree([COLON] + u)
  {
  }

  lemma {:induction false} ElementNulFree(num: Bytes -> bool, c: Codec, s: Bytes, v: Json)
    requires AllNumeric(num) && Element(num, c, s, v)
    ensures NulFree(s)
    decreases v, 1
  {
    hide NulFree, Text, Space;
    var a, t, b :| Space(a) && Text(num, c, t, v) && Space(b) && s == a + t + b;
    SpaceNulFree(a);
    SpaceNulFree(b);
    TextNulFree(num, c, t, v);
    NulFreeJoined(a, t);
    NulFreeJoined(a + t, b);
  }

  lemma {:induction false} ItemsNulFree(num: Bytes -> bool, c: Codec, s: Bytes, items: seq<Json>)
    requires AllNumeric(num) && items != [] && Items(num, c, s, items)
    ensures NulFree(s)
    decreases items
  {
    hide NulFree, Element, Items;
    if |items| == 1 {
      OneItem(num, c, s, items);
      ElementNulFree(num, c, s, items[0]);
    } else {
      var x, y := SplitItems(num, c, s, items);
      ElementNulFree(num, c, x, items[0]);
      ItemsNulFree(num, c, y, items[1..]);
      BracketsNulFree(y);
      NulFreeJoined(x, [COMMA] + y);
    }
  }

  lemma {:induction false} PairNulFree(num: Bytes -> bool, c: Codec, s: Bytes, m: Member)
    requires AllNumeric(num) && Pair(num, c, s, m)
    ensures NulFree(s)
    decreases m
  {
    hide NulFree, Element, Space, IsString;
    var a, k, b, e :| Space(a) && IsString(k, m.key) && Space(b) && Element(num, c, e, m.value)
      && s == a + k + b + [0x3a] + e;
    Rearranged(a, k, b, e);
    SpaceNulFree(a);
    SpaceNulFree(b);
    StringNulFree(k, m.key);
    ElementNulFree(num, c, e, m.value);
    BracketsNulFree(e);
    NulFreeJoined(b, [COLON] + e);
    NulFreeJoined(k, b + ([COLON] + e));
    NulFreeJoined(a, k + (b + ([COLON] + e)));
  }

  lemma {:induction false} MembersNulFree(num: Bytes -> bool, c: Codec, s: Bytes, members: seq<Member>)
    requires AllNumeric(num) && members != [] && Members(num, c, s, members)
    ensures NulFree(s)
    decreases members
  {
    hide NulFree, Pair;
    if |members| == 1 {
      PairNulFree(num, c, s, members[0]);
    } else {
      var x, y := SplitMembers(num, c, s, members);
      PairNulFree(num, c, x, members[0]);
      MembersNulFree(num, c, y, members[1..]);
      BracketsNulFree(y);
      NulFreeJoined(x, [COMMA] + y);
    }
  }

  lemma NoByteOrderMark(num: Bytes -> bool, c: Codec, s: Bytes, v: Json)
    requires AllNumeric(num) && Element(num, c, s, v)
    ensures |s| > 0 && s[0] != 0xef
  {
    hide Text;
    var a, t, b :| Space(a) && Text(num, c, t, v) && Space(b) && s == a + t + b;
    TextStarts(num, c, t, v);
    assert s[0] == if a == [] then t[0] else a[0];
  }

  const MARK: Bytes := [0xef, 0xbb, 0xbf]

  /** The whole parser on a text with white space around it, perhaps with a byte order mark in front
      and something visible behind it, which only an exact parse minds. */
  lemma ElementIsParsed(num: Bytes -> bool, c: Codec, pre: Bytes, s: Bytes, post: Bytes, v: Json, whole: bool)
    requires AllNumeric(num) && Element(num, c, s, v) && Nesting(v) <= NESTING_LIMIT && (pre == [] || pre == MARK)
    requires NulFree(post) && (post != [] ==> post[0] > 32 && !NumberChar(post[0]))
    ensures Parse(c, pre + s + post, whole) == if whole && post != [] then None else Some(Cut(v))
  {
    hide Element, Read, Skip, Nesting, Cut, NulFree, NumberChar;
    var text := pre + s + post;
    ElementNulFree(num, c, s, v);
    MarkNulFree();
    NulFreeJoined(pre, s);
    NulFreeJoined(pre + s, post);
    UpToNulId(text);
    NoByteOrderMark(num, c, s, v);
    var b := text + [NUL];
    BufferParts(pre, s, post);
    BeginIs(pre, s, post);
    Closers();
    var h, j := ElementIsRead(num, c, b, |pre|, s, v, 0);
    if post != [] { assert b[|pre| + |s|] != NUL; }
  }

  lemma MarkNulFree()
    ensures NulFree([]) && NulFree(MARK)
  {
  }

  lemma BufferParts(pre: Bytes, s: Bytes, post: Bytes)
    ensures var b := pre + s + post + [NUL];
      At(b, |pre|, s) && |pre| + |s| < |b| && b[|pre| + |s|] == if post == [] then NUL else post[0]
  {
    var b := pre + s + post + [NUL];
    assert b[|pre|..|pre| + |s|] == s;
  }

  lemma BeginIs(pre: Bytes, s: Bytes, post: Bytes)
    requires (pre == [] || pre == MARK) && |s| > 0 && s[0] != 0xef
    ensures Begin(pre + s + post + [NUL]) == |pre|
  {
    var b := pre + s + post + [NUL];
    if pre == [] {
      assert b[0] == s[0];
    } else {
      assert b[0] == 0xef && b[1] == 0xbb && b[2] == 0xbf;
    }
  }

  /** Every JSON text of RFC 8259 is parsed as its value: with strings cut at their first NUL, when
      its numbers have at most 63 bytes and it is not nested deeper than 1000.  A byte order mark
      in front is skipped; something visible behind it is refused if the whole text is asked for. */
  lemma EveryJsonIsParsed(c: Codec, pre: Bytes, s: Bytes, post: Bytes, v: Json, whole: bool)
    requires Element(t => ShortNumber(t), c, s, v) && Nesting(v) <= 1000 && (pre == [] || pre == [0xef, 0xbb, 0xbf])
    requires NulFree(post) && (post != [] ==> post[0] > 32 && !NumberChar(post[0]))
    ensures Parse(c, pre + s + post, whole) == if whole && post != [] then None else Some(Cut(v))
  {
    hide Element, Nesting, Cut, ShortNumber, Numeric, NulFree, NumberChar;
    var num := t => ShortNumber(t);
    forall t | num(t) ensures Numeric(t) { NumberIsNumeric(t); }
    ElementIsParsed(num, c, pre, s, post, v, whole);
  }
}
