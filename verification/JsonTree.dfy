/**
 Trees of the JSON printer and parser of src/cJSON.c: the text that print_value writes, the
 tree that parse_value reads, and that reading what was written gives the tree back.

 The conversion between doubles and text is not modelled: a number is the bit pattern of its
 double, and a Codec stands for sprintf and strtod.
 */
module JsonTree {
  import opened Basics
  import opened JsonText

  datatype Json =
    | Null
    | False
    | True
    | Number(bits: nat)
    | String(s: Bytes)
    | Array(items: seq<Json>)
    | Object(members: seq<Member>)

  datatype Member = Member(key: Bytes, value: Json)

  /** text prints a number; read gives the number at the start of a text and how many bytes of
      it were used, or None. */
  datatype Codec = Codec(text: nat -> Bytes, read: Bytes -> Option<(nat, nat)>)

  const NESTING_LIMIT := 1000

  // ----- writing -----

  const NULL_TEXT: Bytes := [0x6e, 0x75, 0x6c, 0x6c]
  const FALSE_TEXT: Bytes := [0x66, 0x61, 0x6c, 0x73, 0x65]
  const TRUE_TEXT: Bytes := [0x74, 0x72, 0x75, 0x65]
  const COMMA: Byte := 0x2c
  const OPEN_ARRAY: Byte := 0x5b
  const CLOSE_ARRAY: Byte := 0x5d
  const OPEN_OBJECT: Byte := 0x7b
  const CLOSE_OBJECT: Byte := 0x7d

  function Tabs(n: nat): (r: Bytes)
    ensures |r| == n && forall k :: 0 <= k < n ==> r[k] == TAB
  {
    seq(n, _ => TAB)
  }

  /** The text of a value inside depth containers. */
  function Write(c: Codec, v: Json, fmt: bool, depth: nat): Bytes
    decreases v, 0
  {
    match v
    case Null => NULL_TEXT
    case False => FALSE_TEXT
    case True => TRUE_TEXT
    case Number(n) => c.text(n)
    case String(s) => WriteString(s)
    case Array(items) => [OPEN_ARRAY] + WriteItems(c, items, fmt, depth + 1) + [CLOSE_ARRAY]
    case Object(members) =>
      [OPEN_OBJECT] + (if fmt then [LF] else []) + WriteMembers(c, members, fmt, depth + 1)
      + (if fmt then Tabs(depth) else []) + [CLOSE_OBJECT]
  }

  function WriteItems(c: Codec, items: seq<Json>, fmt: bool, depth: nat): Bytes
    decreases items
  {
    if items == [] then []
    else Write(c, items[0], fmt, depth) + ItemGap(|items| > 1, fmt) + WriteItems(c, items[1..], fmt, depth)
  }

  function ItemGap(more: bool, fmt: bool): Bytes {
    if !more then [] else if fmt then [COMMA, SPACE] else [COMMA]
  }

  function WriteMembers(c: Codec, members: seq<Member>, fmt: bool, depth: nat): Bytes
    decreases members
  {
    if members == [] then []
    else
      MemberStart(members[0].key, fmt, depth) + Write(c, members[0].value, fmt, depth)
      + MemberGap(|members| > 1, fmt) + WriteMembers(c, members[1..], fmt, depth)
  }

  function MemberStart(key: Bytes, fmt: bool, depth: nat): Bytes {
    (if fmt then Tabs(depth) else []) + WriteString(key) + (if fmt then [COLON, TAB] else [COLON])
  }

  function MemberGap(more: bool, fmt: bool): Bytes {
    (if more then [COMMA] else []) + (if fmt then [LF] else [])
  }

  // ----- reading -----

  /** The parser's buffer: a C string with its terminator. */
  predicate Terminated(s: Bytes) { |s| > 0 && s[|s| - 1] == NUL }

  /** The next byte that is not white space, or the last byte of the buffer. */
  function Skip(s: Bytes, i: nat): (r: nat)
    requires i < |s|
    ensures i <= r < |s| && (s[r] > 32 || r == |s| - 1)
    decreases |s| - i
  {
    if s[i] > 32 || i == |s| - 1 then i else Skip(s, i + 1)
  }

  predicate NumberChar(b: Byte) {
    0x30 <= b <= 0x39 || b == 0x2b || b == 0x2d || b == 0x2e || b == 0x45 || b == 0x65
  }

  /** How many of the bytes at i are copied for strtod, at least n. */
  function NumberRun(s: Bytes, i: nat, n: nat): (r: nat)
    requires i + n <= |s| && n <= 63 && forall k :: i <= k < i + n ==> NumberChar(s[k])
    ensures n <= r <= 63 && i + r <= |s| && forall k :: i <= k < i + r ==> NumberChar(s[k])
    decreases 63 - n
  {
    if n == 63 || i + n == |s| || !NumberChar(s[i + n]) then n else NumberRun(s, i, n + 1)
  }

  predicate NumberStart(b: Byte) { b == 0x2d || 0x30 <= b <= 0x39 }

  function ReadNumber(c: Codec, s: Bytes, i: nat): (r: Option<(Json, nat)>)
    requires Terminated(s) && i < |s|
    ensures r.Some? ==> i < r.value.1 < |s|
  {
    var n := NumberRun(s, i, 0);
    match c.read(s[i..i + n])
    case None => None
    case Some((bits, used)) =>
      if 0 < used <= n then
        assert NumberChar(s[i + n - 1]);
        Some((Number(bits), i + used))
      else None
  }

  /** The value at offset i, inside depth containers, and the offset behind it. */
  function Read(c: Codec, s: Bytes, i: nat, depth: nat): (r: Option<(Json, nat)>)
    requires Terminated(s) && i < |s|
    ensures r.Some? ==> i < r.value.1 < |s|
    decreases |s| - i, 3
  {
    if At(s, i, NULL_TEXT) then AtIndex(s, i, NULL_TEXT); Some((Null, i + 4))
    else if At(s, i, FALSE_TEXT) then AtIndex(s, i, FALSE_TEXT); Some((False, i + 5))
    else if At(s, i, TRUE_TEXT) then AtIndex(s, i, TRUE_TEXT); Some((True, i + 4))
    else if s[i] == QUOTE then
      match ReadString(s, i)
      case None => None
      case Some((bytes, j)) => Some((String(UpToNul(bytes)), j))
    else if NumberStart(s[i]) then ReadNumber(c, s, i)
    else if s[i] == OPEN_ARRAY then ReadArray(c, s, i, depth)
    else if s[i] == OPEN_OBJECT then ReadObject(c, s, i, depth)
    else None
  }

  function ReadArray(c: Codec, s: Bytes, i: nat, depth: nat): (r: Option<(Json, nat)>)
    requires Terminated(s) && i < |s| && s[i] == OPEN_ARRAY
    ensures r.Some? ==> i < r.value.1 < |s|
    decreases |s| - i, 2
  {
    if depth >= NESTING_LIMIT then None
    else
      var j := Skip(s, i + 1);
      if s[j] == CLOSE_ARRAY then Some((Array([]), j + 1))
      else
        match ReadItems(c, s, j - 1, depth + 1)
        case None => None
        case Some((items, k)) => Some((Array(items), k))
  }

  /** Items from the byte in front of the first one to the closing bracket. */
  function ReadItems(c: Codec, s: Bytes, i: nat, depth: nat): (r: Option<(seq<Json>, nat)>)
    requires Terminated(s) && i + 1 < |s|
    ensures r.Some? ==> i < r.value.1 < |s|
    decreases |s| - i, 1
  {
    match Read(c, s, Skip(s, i + 1), depth)
    case None => None
    case Some((v, j)) =>
      var k := Skip(s, j);
      if s[k] == COMMA then
        match ReadItems(c, s, k, depth)
        case None => None
        case Some((items, l)) => Some(([v] + items, l))
      else if s[k] == CLOSE_ARRAY then Some(([v], k + 1))
      else None
  }

  function ReadObject(c: Codec, s: Bytes, i: nat, depth: nat): (r: Option<(Json, nat)>)
    requires Terminated(s) && i < |s| && s[i] == OPEN_OBJECT
    ensures r.Some? ==> i < r.value.1 < |s|
    decreases |s| - i, 2
  {
    if depth >= NESTING_LIMIT then None
    else
      var j := Skip(s, i + 1);
      if s[j] == CLOSE_OBJECT then Some((Object([]), j + 1))
      else
        match ReadMembers(c, s, j - 1, depth + 1)
        case None => None
        case Some((members, k)) => Some((Object(members), k))
  }

  /** One name, its colon and the white space behind it: the name and where its value is. */
  function ReadName(s: Bytes, i: nat): (r: Option<(Bytes, nat)>)
    requires Terminated(s) && i + 1 < |s|
    ensures r.Some? ==> i < r.value.1 < |s|
  {
    match ReadString(s, Skip(s, i + 1))
    case None => None
    case Some((bytes, j)) =>
      var k := Skip(s, j);
      if s[k] != COLON then None else Some((UpToNul(bytes), Skip(s, k + 1)))
  }

  function ReadMembers(c: Codec, s: Bytes, i: nat, depth: nat): (r: Option<(seq<Member>, nat)>)
    requires Terminated(s) && i + 1 < |s|
    ensures r.Some? ==> i < r.value.1 < |s|
    decreases |s| - i, 1
  {
    match ReadName(s, i)
    case None => None
    case Some((key, h)) =>
      match Read(c, s, h, depth)
      case None => None
      case Some((v, j)) =>
        var k := Skip(s, j);
        if s[k] == COMMA then
          match ReadMembers(c, s, k, depth)
          case None => None
          case Some((members, l)) => Some(([Member(key, v)] + members, l))
        else if s[k] == CLOSE_OBJECT then Some(([Member(key, v)], k + 1))
        else None
  }

  /** Where reading starts: behind a byte order mark, if there is one. */
  function Begin(s: Bytes): (r: nat)
    requires Terminated(s)
    ensures r < |s|
  {
    if 4 < |s| && s[0] == 0xef && s[1] == 0xbb && s[2] == 0xbf then 3 else 0
  }

  /** A whole C string, with nothing but white space behind the value if `whole` is set. */
  function Parse(c: Codec, text: Bytes, whole: bool): Option<Json> {
    var s := UpToNul(text) + [NUL];
    match Read(c, s, Skip(s, Begin(s)), 0)
    case None => None
    case Some((v, i)) => if whole && s[Skip(s, i)] != NUL then None else Some(v)
  }
}
