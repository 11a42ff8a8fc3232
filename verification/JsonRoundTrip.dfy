/**
 The JSON printer and parser undo each other: the printer writes texts of the grammar, and the
 parser reads every such text.
 */
module JsonRoundTrip {
  import opened Basics
  import opened JsonText
  import opened JsonTree
  import opened JsonSyntax
  import opened JsonConform
  import JsonPrint

  /** Text that sprintf may produce for a number. */
  predicate NumberText(t: Bytes) {
    0 < |t| <= 25 && NumberStart(t[0]) && forall k :: 0 <= k < |t| ==> NumberChar(t[k])
  }

  /** Strings without NUL, and numbers that strtod gives back. */
  predicate Printable(c: Codec, v: Json) {
    match v
    case Number(n) => NumberText(c.text(n)) && c.read(c.text(n)) == Some((n, |c.text(n)|))
    case String(s) => NulFree(s)
    case Array(items) => forall i :: 0 <= i < |items| ==> Printable(c, items[i])
    case Object(members) => forall i :: 0 <= i < |members| ==> NulFree(members[i].key) && Printable(c, members[i].value)
    case _ => true
  }

  // ----- from the printer to the parser -----

  lemma {:induction false} PrintableNumbers(c: Codec, v: Json)
    requires Printable(c, v)
    ensures NumbersPrinted(t => Numeric(t), c, v)
  {
    hide Numeric;
    match v
    case Null =>
    case False =>
    case True =>
    case Number(n) => ShortIsNumeric(c.text(n));
    case String(_) =>
    case Array(items) =>
      forall i | 0 <= i < |items| ensures NumbersPrinted(t => Numeric(t), c, items[i]) {
        PrintableNumbers(c, items[i]);
      }
    case Object(members) =>
      forall i | 0 <= i < |members| ensures NumbersPrinted(t => Numeric(t), c, members[i].value) {
        PrintableNumbers(c, members[i].value);
      }
  }

  lemma ShortIsNumeric(t: Bytes)
    requires NumberText(t)
    ensures Numeric(t)
  {
  }

  /** C strings lose nothing. */
  lemma {:induction false} NothingCut(c: Codec, v: Json)
    requires Printable(c, v)
    ensures Cut(v) == v
    decreases v, 0
  {
    hide UpToNul, NumberText;
    match v
    case Null =>
    case False =>
    case True =>
    case Number(_) =>
    case String(x) => UpToNulId(x);
    case Array(items) => NoItemCut(c, items);
    case Object(members) => NoMemberCut(c, members);
  }

  lemma {:induction false} NoItemCut(c: Codec, items: seq<Json>)
    requires forall i :: 0 <= i < |items| ==> Printable(c, items[i])
    ensures CutItems(items) == items
    decreases items
  {
    hide Printable, Cut;
    if items != [] {
      NothingCut(c, items[0]);
      NoItemCut(c, items[1..]);
      assert items == [items[0]] + items[1..];
    }
  }

  lemma {:induction false} NoMemberCut(c: Codec, members: seq<Member>)
    requires forall i :: 0 <= i < |members| ==> NulFree(members[i].key) && Printable(c, members[i].value)
    ensures CutMembers(members) == members
    decreases members
  {
    hide Printable, Cut, UpToNul;
    if members != [] {
      UpToNulId(members[0].key);
      NothingCut(c, members[0].value);
      NoMemberCut(c, members[1..]);
      assert members == [members[0]] + members[1..];
    }
  }

  /** Reading a written value, wherever it stands in a buffer, gives the value back. */
  lemma ValueRoundTrip(c: Codec, v: Json, fmt: bool, d: nat, s: Bytes, i: nat, depth: nat)
    requires Terminated(s) && Printable(c, v) && depth + Nesting(v) <= NESTING_LIMIT
    requires At(s, i, Write(c, v, fmt, d)) && i + |Write(c, v, fmt, d)| < |s|
    requires !NumberChar(s[i + |Write(c, v, fmt, d)|])
    ensures i < |s| && Read(c, s, i, depth) == Some((v, i + |Write(c, v, fmt, d)|))
  {
    hide Read, Write, Text, Printable, Nesting, Cut, Numeric, NumbersPrinted;
    var num := t => Numeric(t);
    PrintableNumbers(c, v);
    WriteIsText(num, c, v, fmt, d);
    TextIsRead(num, c, s, i, Write(c, v, fmt, d), v, depth);
    NothingCut(c, v);
  }

  // ----- whole texts -----

  lemma {:induction false} PrintableWritable(c: Codec, v: Json)
    requires Printable(c, v)
    ensures JsonPrint.Writable(c, v)
  {
    match v
    case Null =>
    case False =>
    case True =>
    case Number(_) =>
    case String(_) =>
    case Array(items) =>
      forall i | 0 <= i < |items| ensures JsonPrint.Writable(c, items[i]) { PrintableWritable(c, items[i]); }
    case Object(members) =>
      forall i | 0 <= i < |members| ensures JsonPrint.Writable(c, members[i].value)
        { PrintableWritable(c, members[i].value); }
  }

  /** strlen sees the whole text. */
  lemma WriteIsCString(c: Codec, v: Json, fmt: bool)
    requires Printable(c, v)
    ensures UpToNul(Write(c, v, fmt, 0)) == Write(c, v, fmt, 0)
  {
    hide Write, Printable, JsonPrint.Writable;
    PrintableWritable(c, v);
    JsonPrint.WriteNulFree(c, v, fmt, 0);
    UpToNulId(Write(c, v, fmt, 0));
  }

  /** Printing a tree and parsing the text gives the tree back, with all members in order. */
  lemma TreeRoundTrip(c: Codec, v: Json, fmt: bool, whole: bool)
    requires Printable(c, v) && Nesting(v) <= NESTING_LIMIT
    ensures Parse(c, Write(c, v, fmt, 0), whole) == Some(v)
  {
    hide Write, Text, Element, Printable, Nesting, Cut, Numeric, NumbersPrinted, Parse;
    var num, w := t => Numeric(t), Write(c, v, fmt, 0);
    PrintableNumbers(c, v);
    WriteIsText(num, c, v, fmt, 0);
    NoSpace();
    OneElement(num, c, [], w, [], v);
    assert [] + w + [] == w;
    MarkNulFree();
    ElementIsParsed(num, c, [], w, [], v, whole);
    NothingCut(c, v);
  }

  // ----- the nesting limit -----

  /** Nothing that the parser returns is nested deeper than the limit allows. */
  lemma {:induction false} ReadNesting(c: Codec, s: Bytes, i: nat, depth: nat)
    requires Terminated(s) && i < |s| && depth <= NESTING_LIMIT
    ensures Read(c, s, i, depth).Some? ==> depth + Nesting(Read(c, s, i, depth).value.0) <= NESTING_LIMIT
    decreases |s| - i, 3
  {
    hide At, Skip, ReadItems, ReadMembers, ReadString, UpToNul, NumberRun;
    if depth < NESTING_LIMIT {
      if s[i] == OPEN_ARRAY {
        var j := Skip(s, i + 1);
        if s[j] != CLOSE_ARRAY { ItemsReadNesting(c, s, j - 1, depth + 1); }
      } else if s[i] == OPEN_OBJECT {
        var j := Skip(s, i + 1);
        if s[j] != CLOSE_OBJECT { MembersReadNesting(c, s, j - 1, depth + 1); }
      }
    }
  }

  lemma {:induction false} ItemsReadNesting(c: Codec, s: Bytes, i: nat, depth: nat)
    requires Terminated(s) && i + 1 < |s| && depth <= NESTING_LIMIT
    ensures ReadItems(c, s, i, depth).Some? ==> depth + ItemNesting(ReadItems(c, s, i, depth).value.0) <= NESTING_LIMIT
    decreases |s| - i, 1
  {
    hide Read, Skip, Nesting;
    ReadNesting(c, s, Skip(s, i + 1), depth);
    var r := Read(c, s, Skip(s, i + 1), depth);
    if r.Some? {
      var v, k := r.value.0, Skip(s, r.value.1);
      if s[k] == COMMA {
        ItemsReadNesting(c, s, k, depth);
        var rest := ReadItems(c, s, k, depth);
        if rest.Some? { assert ([v] + rest.value.0)[1..] == rest.value.0; }
      } else {
        assert [v][1..] == [];
      }
    }
  }

  lemma {:induction false} MembersReadNesting(c: Codec, s: Bytes, i: nat, depth: nat)
    requires Terminated(s) && i + 1 < |s| && depth <= NESTING_LIMIT
    ensures ReadMembers(c, s, i, depth).Some? ==>
      depth + MemberNesting(ReadMembers(c, s, i, depth).value.0) <= NESTING_LIMIT
    decreases |s| - i, 1
  {
    hide Read, Skip, ReadName, Nesting;
    var n := ReadName(s, i);
    if n.Some? {
      ReadNesting(c, s, n.value.1, depth);
      var r := Read(c, s, n.value.1, depth);
      if r.Some? {
        var m, k := Member(n.value.0, r.value.0), Skip(s, r.value.1);
        if s[k] == COMMA {
          MembersReadNesting(c, s, k, depth);
          var rest := ReadMembers(c, s, k, depth);
          if rest.Some? { assert ([m] + rest.value.0)[1..] == rest.value.0; }
        } else {
          assert [m][1..] == [];
        }
      }
    }
  }

  /** A printable tree survives printing and parsing if and only if its nesting is within the
      limit. */
  lemma RoundTripIff(c: Codec, v: Json, fmt: bool, whole: bool)
    requires Printable(c, v)
    ensures Parse(c, Write(c, v, fmt, 0), whole) == Some(v) <==> Nesting(v) <= 1000
  {
    hide Read, Write, Printable, Nesting, Skip, Begin, UpToNul;
    WriteIsCString(c, v, fmt);
    if Nesting(v) <= 1000 {
      TreeRoundTrip(c, v, fmt, whole);
    }
    var s := Write(c, v, fmt, 0) + [NUL];
    ReadNesting(c, s, Skip(s, Begin(s)), 0);
  }
}
