/**
 Request summaries: the payload formatters of src/protocol.c.  A payload becomes one printable
 line of at most 127 bytes.
 */
module Resp {

  import opened Basics

  const MAX_BUF_SIZE := 127
  const DOT: Byte := 0x2e
  const STAR: Byte := 0x2a
  const DOLLAR: Byte := 0x24

  // ----- what a summary is -----

  predicate Plain(b: Byte) { 0x20 <= b < 0x7f }

  function Sanitize(s: Bytes): (r: Bytes)
    ensures |r| == |s| && forall i :: 0 <= i < |s| ==> r[i] == if Plain(s[i]) then s[i] else DOT
  {
    seq(|s|, i requires 0 <= i < |s| => if Plain(s[i]) then s[i] else DOT)
  }

  function Clip(s: Bytes, n: nat): Bytes { if |s| <= n then s else s[..n] }

  /** The room in a summary of a payload of this size. */
  function Capacity(size: int): (c: nat)
    ensures c <= MAX_BUF_SIZE
  {
    if size > MAX_BUF_SIZE then MAX_BUF_SIZE else if size < 0 then 0 else size
  }

  /** A line end at i. */
  predicate CrlfAt(s: Bytes, i: int) { 0 <= i && i + 1 < |s| && s[i] == CR && s[i + 1] == LF }

  /** The first line end from i on. */
  function FindCrlf(s: Bytes, i: nat): (r: Option<nat>)
    ensures r.Some? ==> i <= r.value && CrlfAt(s, r.value) && forall k :: i <= k < r.value ==> !CrlfAt(s, k)
    ensures r.None? ==> forall k :: i <= k ==> !CrlfAt(s, k)
    decreases |s| - i
  {
    if i + 1 >= |s| then None else if CrlfAt(s, i) then Some(i) else FindCrlf(s, i + 1)
  }

  /** The complete lines of a text. */
  function Lines(s: Bytes): seq<Bytes>
    decreases |s|
  {
    match FindCrlf(s, 0)
    case None => []
    case Some(i) => [s[..i]] + Lines(s[i + 2..])
  }

  /** The arguments of a RESP array: every other line, from the third on; n lines came before. */
  function Arguments(lines: seq<Bytes>, n: nat): seq<Bytes> {
    if lines == [] then []
    else (if n != 0 && n % 2 == 0 then [lines[0]] else []) + Arguments(lines[1..], n + 1)
  }

  /** Parts joined by single spaces; nothing separates a part from an empty beginning. */
  function Joined(start: Bytes, parts: seq<Bytes>): Bytes
    decreases |parts|
  {
    if parts == [] then start else Joined(JoinOne(start, parts[0]), parts[1..])
  }

  function JoinOne(start: Bytes, part: Bytes): Bytes {
    if start == [] then part else start + [SPACE] + part
  }

  /** The summary of the given text, or of the whole payload if there is no text. */
  function Summary(text: Bytes, payload: Bytes): Bytes {
    var cap := Capacity(|payload|);
    if Clip(text, cap) == [] then Clip(Sanitize(payload), cap) else Clip(Sanitize(text), cap)
  }

  function RawSummary(payload: Bytes): Bytes { Clip(Sanitize(payload), Capacity(|payload|)) }

  function LineSummary(payload: Bytes): Bytes { Summary(Joined([], Lines(payload)), payload) }

  function RedisSummary(payload: Bytes): Bytes {
    if payload == [] then RawSummary(payload)
    else if payload[0] != STAR then LineSummary(payload)
    else Summary(Joined([], Arguments(Lines(payload), 0)), payload)
  }

  /** Whatever the payload, the summary is printable and at most 127 bytes long, and no longer
      than the payload. */
  lemma SummaryPrintable(payload: Bytes)
    ensures var r := RedisSummary(payload);
      |r| <= MAX_BUF_SIZE && |r| <= |payload| && forall i :: 0 <= i < |r| ==> Plain(r[i])
  {
    hide Joined, Lines, Arguments;
  }

  // ----- RESP arrays -----

  function EncodeLine(line: Bytes): Bytes { line + [CR, LF] }

  function EncodeArguments(args: seq<Bytes>): Bytes {
    if args == [] then []
    else EncodeLine([DOLLAR] + Decimal(|args[0]|)) + (EncodeLine(args[0]) + EncodeArguments(args[1..]))
  }

  /** The encoding of a command in the Redis protocol. */
  function EncodeArray(args: seq<Bytes>): Bytes {
    EncodeLine([STAR] + Decimal(|args|)) + EncodeArguments(args)
  }

  ghost predicate OneLine(s: Bytes) { forall k :: 0 <= k < |s| ==> !CrlfAt(s, k) }

  lemma {:induction false} FindFirst(s: Bytes, i: nat, j: nat)
    requires i <= j && CrlfAt(s, j) && forall k :: i <= k < j ==> !CrlfAt(s, k)
    ensures FindCrlf(s, i) == Some(j)
    decreases j - i
  {
    if i < j { FindFirst(s, i + 1, j); }
  }

  lemma FirstLine(line: Bytes, rest: Bytes)
    requires OneLine(line)
    ensures Lines(EncodeLine(line) + rest) == [line] + Lines(rest)
  {
    var s := EncodeLine(line) + rest;
    var n := |line|;
    assert s[n] == CR && s[n + 1] == LF;
    forall k | 0 <= k < n ensures !CrlfAt(s, k) {
      assert !CrlfAt(line, k);
      assert s[k] == line[k] && (k + 1 < n ==> s[k + 1] == line[k + 1]);
    }
    FindFirst(s, 0, n);
    assert s[..n] == line && s[n + 2..] == rest;
  }

  lemma HeaderLine(b: Byte, n: nat)
    requires b != CR
    ensures OneLine([b] + Decimal(n))
  {
    hide Decimal;
  }

  lemma {:induction false} ArgumentsRead(args: seq<Bytes>, n: nat)
    requires n % 2 == 1 && forall i :: 0 <= i < |args| ==> OneLine(args[i])
    ensures Arguments(Lines(EncodeArguments(args)), n) == args
    decreases |args|
  {
    hide Decimal, EncodeLine, Lines, OneLine;
    if args == [] {
      NoLines();
    } else {
      var header := [DOLLAR] + Decimal(|args[0]|);
      HeaderLine(DOLLAR, |args[0]|);
      FirstLine(header, EncodeLine(args[0]) + EncodeArguments(args[1..]));
      FirstLine(args[0], EncodeArguments(args[1..]));
      ArgumentsRead(args[1..], n + 2);
      var rest := Lines(EncodeArguments(args[1..]));
      assert ([header] + ([args[0]] + rest))[1..] == [args[0]] + rest;
      assert ([args[0]] + rest)[1..] == rest;
      assert args == [args[0]] + args[1..];
    }
  }

  lemma NoLines()
    ensures Lines([]) == []
  {
  }

  /** All arguments of a list with one space between two. */
  function Words(args: seq<Bytes>): Bytes {
    if args == [] then [] else if |args| == 1 then args[0] else args[0] + [SPACE] + Words(args[1..])
  }

  lemma {:induction false} JoinedIsWords(start: Bytes, args: seq<Bytes>)
    requires start != [] && args != []
    ensures Joined(start, args) == start + [SPACE] + Words(args)
    decreases |args|
  {
    if |args| > 1 {
      JoinedIsWords(JoinOne(start, args[0]), args[1..]);
      assert start + [SPACE] + args[0] + [SPACE] + Words(args[1..])
        == start + [SPACE] + (args[0] + [SPACE] + Words(args[1..]));
    }
  }

  lemma WordsJoined(args: seq<Bytes>)
    requires args != [] && args[0] != []
    ensures Joined([], args) == Words(args)
  {
    if |args| > 1 { JoinedIsWords(args[0], args[1..]); }
  }

  lemma {:induction false} WordsShorter(args: seq<Bytes>)
    ensures |Words(args)| <= |EncodeArguments(args)|
  {
    hide Decimal;
    if args != [] { WordsShorter(args[1..]); }
  }

  /** The summary of a command is the first 127 bytes of its arguments, joined by single spaces,
      with a dot for every byte that cannot be printed. */
  lemma RedisSummaryOfCommand(args: seq<Bytes>)
    requires args != [] && forall i :: 0 <= i < |args| ==> args[i] != [] && OneLine(args[i])
    ensures RedisSummary(EncodeArray(args)) == Clip(Sanitize(Words(args)), 127)
  {
    hide EncodeArray, Lines, OneLine, Words, Joined, Sanitize, Summary, Arguments, Clip;
    CommandText(args);
    CommandSize(args);
    SummaryOfText(Words(args), EncodeArray(args));
  }

  /** The text that the formatter finds in a command. */
  lemma CommandText(args: seq<Bytes>)
    requires args != [] && args[0] != [] && forall i :: 0 <= i < |args| ==> OneLine(args[i])
    ensures Joined([], Arguments(Lines(EncodeArray(args)), 0)) == Words(args)
  {
    hide Decimal, EncodeLine, Lines, OneLine, Words, Joined, EncodeArguments, EncodeArray, Arguments;
    var header, lines := [STAR] + Decimal(|args|), Lines(EncodeArguments(args));
    ArrayLines(args);
    SkipHeader(header, lines);
    ArgumentsRead(args, 1);
    WordsJoined(args);
  }

  lemma ArrayLines(args: seq<Bytes>)
    ensures Lines(EncodeArray(args)) == [[STAR] + Decimal(|args|)] + Lines(EncodeArguments(args))
  {
    hide Decimal, EncodeLine, Lines, OneLine, EncodeArguments;
    HeaderLine(STAR, |args|);
    FirstLine([STAR] + Decimal(|args|), EncodeArguments(args));
  }

  lemma CommandSize(args: seq<Bytes>)
    requires args != [] && args[0] != []
    ensures 0 < |Words(args)| < |EncodeArray(args)| && EncodeArray(args)[0] == STAR
  {
    hide Decimal, EncodeLine, Words, EncodeArguments;
    LineStart([STAR] + Decimal(|args|), EncodeArguments(args));
    WordsShorter(args);
    WordsNonempty(args);
  }

  lemma SkipHeader(header: Bytes, lines: seq<Bytes>)
    ensures Arguments([header] + lines, 0) == Arguments(lines, 1)
  {
    assert ([header] + lines)[1..] == lines;
  }

  lemma SummaryOfText(text: Bytes, payload: Bytes)
    requires 0 < |text| <= |payload|
    ensures Summary(text, payload) == Clip(Sanitize(text), MAX_BUF_SIZE)
  {
  }

  lemma LineStart(header: Bytes, body: Bytes)
    requires header != []
    ensures var s := EncodeLine(header) + body; |s| > |body| && s[0] == header[0]
  {
  }

  lemma WordsNonempty(args: seq<Bytes>)
    requires args != [] && args[0] != []
    ensures Words(args) != []
  {
  }

  // ----- any payload -----

  function EncodeLines(lines: seq<Bytes>): Bytes {
    if lines == [] then [] else EncodeLine(lines[0]) + EncodeLines(lines[1..])
  }

  ghost predicate AllOneLine(lines: seq<Bytes>) { forall i :: 0 <= i < |lines| ==> OneLine(lines[i]) }

  /** Empty lines in front of the first text are not shown. */
  function FromText(lines: seq<Bytes>): seq<Bytes> {
    if lines == [] || lines[0] != [] then lines else FromText(lines[1..])
  }

  lemma {:induction false} LinesRead(lines: seq<Bytes>, tail: Bytes)
    requires AllOneLine(lines) && OneLine(tail)
    ensures Lines(EncodeLines(lines) + tail) == lines
  {
    hide EncodeLine, OneLine, Lines;
    if lines == [] {
      assert [] + tail == tail;
      NoLineIn(tail);
    } else {
      var rest := EncodeLines(lines[1..]) + tail;
      assert EncodeLines(lines) + tail == EncodeLine(lines[0]) + rest;
      FirstLine(lines[0], rest);
      LinesRead(lines[1..], tail);
    }
  }

  lemma NoLineIn(s: Bytes)
    requires OneLine(s)
    ensures Lines(s) == []
  {
    var r := FindCrlf(s, 0);
    if r.Some? { assert false; }
  }

  /** Every payload is a list of lines, each with its line end, and a rest without one. */
  lemma {:induction false} PayloadSplits(s: Bytes) returns (lines: seq<Bytes>, tail: Bytes)
    ensures s == EncodeLines(lines) + tail && AllOneLine(lines) && OneLine(tail)
    decreases |s|
  {
    var r := FindCrlf(s, 0);
    if r.None? {
      lines, tail := [], s;
    } else {
      var i := r.value;
      lines, tail := PayloadSplits(s[i + 2..]);
      var first := s[..i];
      forall k | 0 <= k < |first| ensures !CrlfAt(first, k) {
        if CrlfAt(first, k) {
          assert CrlfAt(s, k);
          assert false;
        }
      }
      assert s == EncodeLine(first) + s[i + 2..];
      assert EncodeLine(first) + (EncodeLines(lines) + tail) == (EncodeLine(first) + EncodeLines(lines)) + tail;
      assert ([first] + lines)[1..] == lines;
      lines := [first] + lines;
    }
  }

  lemma {:induction false} JoinedFromText(lines: seq<Bytes>)
    ensures Joined([], lines) == Words(FromText(lines))
    ensures FromText(lines) != [] ==> Words(FromText(lines)) != []
  {
    if lines != [] {
      if lines[0] == [] {
        JoinedFromText(lines[1..]);
      } else {
        WordsJoined(lines);
        WordsNonempty(lines);
      }
    }
  }

  lemma {:induction false} TextShorter(lines: seq<Bytes>)
    ensures |Words(FromText(lines))| <= |Words(lines)| <= |EncodeLines(lines)|
  {
    if lines != [] { TextShorter(lines[1..]); }
  }

  /** What a payload that is not a RESP array is shown as: the first 127 bytes of its lines from
      the first text on, joined by single spaces, or of the payload itself if there is no text. */
  lemma SummaryOfLines(lines: seq<Bytes>, tail: Bytes)
    requires AllOneLine(lines) && OneLine(tail)
    ensures var payload, text := EncodeLines(lines) + tail, FromText(lines);
      var shown := if text == [] then payload else Words(text);
      && LineSummary(payload) == Clip(Sanitize(shown), 127)
      && (payload != [] && payload[0] != 0x2a ==> RedisSummary(payload) == Clip(Sanitize(shown), 127))
  {
    hide Lines, Joined, Words, EncodeLines, FromText, OneLine, Sanitize, Arguments;
    var payload, text := EncodeLines(lines) + tail, FromText(lines);
    LinesRead(lines, tail);
    JoinedFromText(lines);
    TextShorter(lines);
    NothingJoined();
    SummaryShown(if text == [] then [] else Words(text), payload);
  }

  lemma NothingJoined()
    ensures Words([]) == []
  {
  }

  lemma SummaryShown(text: Bytes, payload: Bytes)
    requires |text| <= |payload|
    ensures Summary(text, payload) == Clip(Sanitize(if text == [] then payload else text), 127)
  {
  }

  /** A clipped and cleaned text byte by byte. */
  lemma ShownBytes(text: Bytes)
    ensures var r := Clip(Sanitize(text), 127);
      && |r| == (if |text| < 127 then |text| else 127)
      && forall i :: 0 <= i < |r| ==> r[i] == if 0x20 <= text[i] <= 0x7e then text[i] else 0x2e
    ensures RawSummary(text) == Clip(Sanitize(text), 127)
  {
  }

  /** A command without arguments has no text of its own, so the payload itself is shown. */
  lemma EmptyCommand()
    ensures RedisSummary(EncodeArray([])) == [STAR, 0x30, DOT, DOT]
  {
    hide Lines, OneLine;
    assert Decimal(0) == [0x30];
    assert EncodeArguments([]) == [];
    var s := EncodeArray([]);
    assert s == EncodeLine([STAR, 0x30]) + [];
    assert s == [STAR, 0x30, CR, LF];
    assert [STAR] + Decimal(0) == [STAR, 0x30];
    HeaderLine(STAR, 0);
    FirstLine([STAR, 0x30], []);
    NoLines();
    assert Lines(s) == [[STAR, 0x30]];
    assert [[STAR, 0x30]][1..] == [];
    assert Arguments([], 1) == [];
    assert Arguments(Lines(s), 0) == [];
    assert Joined([], []) == [];
    assert Sanitize(s) == [STAR, 0x30, DOT, DOT];
  }

  // ----- the formatters -----

  /** struct buf. */
  class Buf {
    const data: array<Byte>
    var len: nat
    const cap: nat

    ghost predicate Valid()
      reads this, data
    {
      len <= cap && data.Length == cap + 1
    }

    ghost function Contents(): Bytes
      reads this, data
      requires Valid()
    {
      data[..len]
    }

    /** buf_init, when memory is there. */
    constructor (size: int)
      ensures Valid() && cap == Capacity(size) && Contents() == [] && fresh(data)
    {
      var c := if size > MAX_BUF_SIZE then MAX_BUF_SIZE else size;
      if c < 0 { c := 0; }
      cap, len := c, 0;
      data := new Byte[c + 1];
    }

    /** buf_append: as much of the source as fits, made printable. */
    method Append(src: Bytes)
      requires Valid()
      modifies this`len, data
      ensures Valid() && Contents() == Clip(old(Contents()) + Sanitize(src), cap)
    {
      var room := cap - len;
      var n := if |src| > room then room else |src|;
      ghost var before := Contents();
      for i := 0 to n
        invariant Valid() && len == |before| + i && Contents() == before + Sanitize(src)[..i]
      {
        var c := src[i];
        data[len] := if 0x20 <= c < 0x7f then c else DOT;
        len := len + 1;
        assert Contents() == before + Sanitize(src)[..i] + [Sanitize(src)[i]];
      }
    }

    /** The text so far, with its NUL. */
    method Finish() returns (text: Bytes)
      requires Valid()
      modifies data
      ensures text == old(Contents())
    {
      text := data[..len];
      data[len] := 0;
    }
  }

  /** find_crlf. */
  method ScanCrlf(s: Bytes, start: nat) returns (r: Option<nat>)
    ensures r == FindCrlf(s, start)
  {
    var i := start;
    while i + 1 < |s|
      invariant start <= i && FindCrlf(s, start) == FindCrlf(s, i)
    {
      if s[i] == CR && s[i + 1] == LF { return Some(i); }
      i := i + 1;
    }
    return None;
  }

  /** Appending parts one by one, each clipped, is clipping what they make together. */
  lemma ClipAppend(a: Bytes, b: Bytes, n: nat)
    ensures Clip(Clip(a, n) + b, n) == Clip(a + b, n)
  {
  }

  lemma SanitizeAppend(a: Bytes, b: Bytes)
    ensures Sanitize(a + b) == Sanitize(a) + Sanitize(b)
  {
  }

  lemma {:induction false} JoinedExtends(start: Bytes, parts: seq<Bytes>)
    ensures |start| <= |Joined(start, parts)| && Joined(start, parts)[..|start|] == start
    decreases |parts|
  {
    if parts != [] {
      JoinedExtends(JoinOne(start, parts[0]), parts[1..]);
      assert JoinOne(start, parts[0])[..|start|] == start;
    }
  }

  /** When the buffer is full, nothing that follows changes it. */
  lemma FullStays(text: Bytes, parts: seq<Bytes>, n: nat)
    requires |Clip(Sanitize(text), n)| >= n
    ensures Clip(Sanitize(Joined(text, parts)), n) == Clip(Sanitize(text), n)
  {
    JoinedExtends(text, parts);
    var all := Joined(text, parts);
    hide Joined;
    assert all == text + all[|text|..];
    SanitizeAppend(text, all[|text|..]);
  }

  lemma LinesFrom(s: Bytes, start: nat)
    requires start <= |s|
    ensures FindCrlf(s, start).None? ==> Lines(s[start..]) == []
    ensures FindCrlf(s, start).Some? ==>
      var i := FindCrlf(s, start).value; Lines(s[start..]) == [s[start..i]] + Lines(s[i + 2..])
  {
    hide CrlfAt, FindCrlf;
    var t, r, q := s[start..], FindCrlf(s, start), FindCrlf(s[start..], 0);
    if r.Some? {
      var i := r.value;
      CrlfShift(s, start, i - start);
      forall k | 0 <= k < i - start ensures !CrlfAt(t, k) { CrlfShift(s, start, k); }
      FindFirst(t, 0, i - start);
      CrlfInside(s, i);
      assert t[..i - start] == s[start..i];
      assert t[i - start + 2..] == s[i + 2..];
    } else if q.Some? {
      CrlfShift(s, start, q.value);
      assert false;
    }
  }

  lemma CrlfShift(s: Bytes, start: nat, k: nat)
    requires start <= |s|
    ensures CrlfAt(s[start..], k) <==> CrlfAt(s, start + k)
  {
    var t := s[start..];
    if k + 1 < |t| { assert t[k] == s[start + k] && t[k + 1] == s[start + (k + 1)]; }
  }

  lemma CrlfInside(s: Bytes, i: nat)
    requires CrlfAt(s, i)
    ensures i + 2 <= |s|
  {
  }

  /** The parts of a text that are shown: all lines, or the arguments of a RESP array. */
  function Parts(lines: seq<Bytes>, n: nat, redis: bool): seq<Bytes> { if redis then Arguments(lines, n) else lines }

  /** The loop that format_redis and format_memcached share. */
  method FormatLines(payload: Bytes, redis: bool) returns (r: Bytes)
    requires redis ==> payload != []
    ensures r == Summary(Joined([], Parts(Lines(payload), 0, redis)), payload)
  {
    hide Lines, Joined, Arguments, Sanitize, FindCrlf, Clip;
    var b := new Buf(|payload|);
    var start, fields := 0, 0;
    ghost var text, whole, cap := [], Joined([], Parts(Lines(payload), 0, redis)), b.cap;
    assert payload[0..] == payload;
    StartText(cap);
    while true
      invariant fresh(b) && fresh(b.data) && b.Valid() && 0 <= start <= |payload| && 0 <= fields
      invariant b.Contents() == Clip(Sanitize(text), cap)
      invariant whole == Joined(text, Parts(Lines(payload[start..]), fields, redis))
      decreases |payload| - start
    {
      LinesFrom(payload, start);
      var pos := ScanCrlf(payload, start);
      if pos.None? {
        NoParts(text, fields, redis);
        break;
      }
      ghost var lines := Lines(payload[start..]);
      NextPart(text, lines, fields, redis);
      if !redis || (fields != 0 && fields % 2 == 0) {
        PartAppended(text, payload[start..pos.value], cap);
        if b.len > 0 { b.Append([SPACE]); }
        b.Append(payload[start..pos.value]);
        text := JoinOne(text, payload[start..pos.value]);
        if b.len >= b.cap {
          FullStays(text, Parts(lines[1..], fields + 1, redis), cap);
          break;
        }
      }
      start, fields := pos.value + 2, fields + 1;
    }
    SummaryText(text, whole, payload);
    if b.len == 0 { b.Append(payload); }
    r := b.Finish();
  }

  lemma StartText(cap: nat)
    ensures Clip(Sanitize([]), cap) == []
  {
  }

  lemma NoParts(text: Bytes, n: nat, redis: bool)
    ensures Joined(text, Parts([], n, redis)) == text
  {
  }

  lemma NextPart(text: Bytes, lines: seq<Bytes>, n: nat, redis: bool)
    requires lines != []
    ensures Joined(text, Parts(lines, n, redis)) ==
      if !redis || (n != 0 && n % 2 == 0) then Joined(JoinOne(text, lines[0]), Parts(lines[1..], n + 1, redis))
      else Joined(text, Parts(lines[1..], n + 1, redis))
  {
    var rest := Parts(lines[1..], n + 1, redis);
    if redis && n != 0 && n % 2 == 0 {
      assert ([lines[0]] + rest)[1..] == rest;
    } else if redis {
      assert [] + rest == rest;
    }
  }

  lemma PartAppended(text: Bytes, part: Bytes, cap: nat)
    ensures var c := Clip(Sanitize(text), cap);
      && (cap > 0 ==> (|c| > 0 <==> text != []))
      && (text != [] ==>
        Clip(Clip(c + Sanitize([SPACE]), cap) + Sanitize(part), cap) == Clip(Sanitize(JoinOne(text, part)), cap))
      && (text == [] ==> Clip(c + Sanitize(part), cap) == Clip(Sanitize(JoinOne(text, part)), cap))
      && (cap == 0 ==> forall s: Bytes :: Clip(s, cap) == [])
  {
    SanitizeAppend(text, [SPACE]);
    SanitizeAppend(text + [SPACE], part);
    ClipAppend(Sanitize(text), Sanitize([SPACE]), cap);
    ClipAppend(Sanitize(text + [SPACE]), Sanitize(part), cap);
    ClipAppend(Sanitize(text), Sanitize(part), cap);
    assert text == [] ==> Sanitize(text) + Sanitize(part) == Sanitize(part);
  }

  lemma SummaryText(text: Bytes, whole: Bytes, payload: Bytes)
    requires Clip(Sanitize(whole), Capacity(|payload|)) == Clip(Sanitize(text), Capacity(|payload|))
    ensures var cap := Capacity(|payload|); var c := Clip(Sanitize(text), cap);
      Summary(whole, payload) == if |c| == 0 then Clip(c + Sanitize(payload), cap) else c
  {
    var cap := Capacity(|payload|);
    var c := Clip(Sanitize(text), cap);
    assert |Clip(whole, cap)| == |Clip(Sanitize(whole), cap)|;
    if |c| == 0 { assert c + Sanitize(payload) == Sanitize(payload); }
  }

  /** format_raw. */
  method FormatRaw(payload: Bytes) returns (r: Bytes)
    ensures r == RawSummary(payload)
  {
    var b := new Buf(|payload|);
    b.Append(payload);
    assert [] + Sanitize(payload) == Sanitize(payload);
    r := b.Finish();
  }

  /** format_memcached and format_http. */
  method FormatMemcached(payload: Bytes) returns (r: Bytes)
    ensures r == LineSummary(payload)
  {
    r := FormatLines(payload, false);
  }

  /** format_redis. */
  method FormatRedis(payload: Bytes) returns (r: Bytes)
    ensures r == RedisSummary(payload)
  {
    if payload == [] {
      r := FormatRaw(payload);
    } else if payload[0] != STAR {
      r := FormatMemcached(payload);
    } else {
      r := FormatLines(payload, true);
    }
  }
}
