/**
 The strings of section 7 of RFC 8259, read in one pass by their grammar, and how the two
 scans of parse_string (src/cJSON.c) compare with it.
 */
module JsonGrammar {
  import opened Basics
  import opened JsonText

  // ----- the grammar -----

  /** 0-9, A-F, a-f. */
  function Hexadecimal(b: Byte): (r: Option<nat>)
    ensures r.Some? ==> r.value < 16
  {
    if 0x30 <= b <= 0x39 then Some(b - 0x30)
    else if 0x41 <= b <= 0x46 then Some(b - 0x37)
    else if 0x61 <= b <= 0x66 then Some(b - 0x57)
    else None
  }

  /** Four hexadecimal digits at i. */
  predicate Digits4(s: Bytes, i: nat) {
    i + 4 <= |s| && Hexadecimal(s[i]).Some? && Hexadecimal(s[i + 1]).Some? && Hexadecimal(s[i + 2]).Some?
      && Hexadecimal(s[i + 3]).Some?
  }

  function Unit(s: Bytes, i: nat): (u: nat)
    requires Digits4(s, i)
    ensures u < 0x10000
  {
    0x1000 * Hexadecimal(s[i]).value + 0x100 * Hexadecimal(s[i + 1]).value + 0x10 * Hexadecimal(s[i + 2]).value
      + Hexadecimal(s[i + 3]).value
  }

  /** A \\uXXXX literal of one unit, or of two that form a surrogate pair. */
  function GrammarUnit(s: Bytes, i: nat): (r: Option<Literal>)
    ensures r.Some? ==> r.value.length in {6, 12} && i + r.value.length <= |s| && r.value.scalar <= 0x10ffff
  {
    if !Digits4(s, i + 2) then None
    else
      var first := Unit(s, i + 2);
      if !(0xd800 <= first <= 0xdfff) then Some(Literal(6, first))
      else if first <= 0xdbff && Digits4(s, i + 8) && s[i + 6] == 0x5c && s[i + 7] == 0x75
              && 0xdc00 <= Unit(s, i + 8) <= 0xdfff then
        Some(Literal(12, 0x10000 + 0x400 * (first - 0xd800) + (Unit(s, i + 8) - 0xdc00)))
      else None
  }

  /** What stands for which byte behind a backslash. */
  function GrammarEscape(b: Byte): Option<Byte> {
    match b
    case 0x22 => Some(0x22)
    case 0x5c => Some(0x5c)
    case 0x2f => Some(0x2f)
    case 0x62 => Some(0x08)
    case 0x66 => Some(0x0c)
    case 0x6e => Some(0x0a)
    case 0x72 => Some(0x0d)
    case 0x74 => Some(0x09)
    case _ => None
  }

  /** The characters from i on, up to the closing quote: their bytes and where the quote is.
      The grammar has no unescaped control characters; `control` lets them through. */
  function GrammarChars(s: Bytes, i: nat, control: bool): (r: Option<(Bytes, nat)>)
    requires i <= |s|
    ensures r.Some? ==> i <= r.value.1 < |s| && s[r.value.1] == QUOTE
    decreases |s| - i
  {
    if i == |s| then None
    else if s[i] == 0x22 then Some(([], i))
    else if s[i] != 0x5c then
      (if s[i] < 0x20 && !control then None else Then([s[i]], GrammarChars(s, i + 1, control)))
    else if i + 1 == |s| then None
    else if s[i + 1] == 0x75 then
      match GrammarUnit(s, i)
      case None => None
      case Some(lit) => Then(Utf8(lit.scalar), GrammarChars(s, i + lit.length, control))
    else
      match GrammarEscape(s[i + 1])
      case None => None
      case Some(b) => Then([b], GrammarChars(s, i + 2, control))
  }

  function Then(x: Bytes, rest: Option<(Bytes, nat)>): Option<(Bytes, nat)> {
    match rest
    case None => None
    case Some((y, end)) => Some((x + y, end))
  }

  /** A whole string at i: its bytes and the offset behind it. */
  function GrammarString(s: Bytes, i: nat, control: bool): Option<(Bytes, nat)>
    requires i < |s|
  {
    if s[i] != 0x22 then None
    else
      match GrammarChars(s, i + 1, control)
      case None => None
      case Some((v, end)) => Some((v, end + 1))
  }

  // ----- what the grammar reads, the parser reads -----

  /** The parser knows the same digits, units and escapes. */
  lemma SameUnits(s: Bytes, i: nat)
    requires i + 4 <= |s|
    ensures Hex4(s, i) == if Digits4(s, i) then Unit(s, i) else 0
  {
    SameDigit(s[i]);
    SameDigit(s[i + 1]);
    SameDigit(s[i + 2]);
    SameDigit(s[i + 3]);
    hide HexDigit, Hexadecimal;
  }

  lemma SameDigit(b: Byte)
    ensures HexDigit(b) == Hexadecimal(b)
  {
  }

  lemma SameEscapes(b: Byte)
    ensures GrammarEscape(b) == Escaped(b)
  {
  }

  lemma DigitsPlain(s: Bytes, i: nat)
    requires Digits4(s, i)
    ensures StringEnd(s, i) == StringEnd(s, i + 4)
  {
    assert StringEnd(s, i) == StringEnd(s, i + 1) == StringEnd(s, i + 2);
    assert StringEnd(s, i + 2) == StringEnd(s, i + 3) == StringEnd(s, i + 4);
  }

  lemma UnitScanned(s: Bytes, i: nat)
    requires i + 1 < |s| && s[i] == BACKSLASH && s[i + 1] == LOWER_U && GrammarUnit(s, i).Some?
    ensures StringEnd(s, i) == StringEnd(s, i + GrammarUnit(s, i).value.length)
  {
    hide Unit;
    DigitsPlain(s, i + 2);
    assert StringEnd(s, i) == StringEnd(s, i + 2);
    if GrammarUnit(s, i).value.length == 12 {
      DigitsPlain(s, i + 8);
      assert StringEnd(s, i + 6) == StringEnd(s, i + 8);
    }
  }

  lemma UnitRead(s: Bytes, i: nat, end: nat)
    requires GrammarUnit(s, i).Some? && i + GrammarUnit(s, i).value.length <= end <= |s|
    ensures ReadLiteral(s, i, end) == GrammarUnit(s, i)
  {
    hide Hex4, Unit, Hexadecimal;
    SameUnits(s, i + 2);
    if i + 12 <= |s| { SameUnits(s, i + 8); }
  }

  /** Every text that the grammar allows is read as the grammar says. */
  lemma {:induction false} GrammarCharsRead(s: Bytes, i: nat, control: bool)
    requires i <= |s| && GrammarChars(s, i, control).Some?
    ensures var (v, end) := GrammarChars(s, i, control).value;
      StringEnd(s, i) == Some(end) && Unescape(s, i, end) == Some(v)
    decreases |s| - i
  {
    hide GrammarUnit, ReadLiteral, Escaped, GrammarEscape, Utf8;
    var end := GrammarChars(s, i, control).value.1;
    if s[i] == QUOTE {
    } else if s[i] != BACKSLASH {
      GrammarCharsRead(s, i + 1, control);
    } else if s[i + 1] == LOWER_U {
      var lit := GrammarUnit(s, i).value;
      GrammarCharsRead(s, i + lit.length, control);
      UnitScanned(s, i);
      UnitRead(s, i, end);
    } else {
      SameEscapes(s[i + 1]);
      GrammarCharsRead(s, i + 2, control);
    }
  }

  lemma GrammarStringRead(s: Bytes, i: nat, control: bool)
    requires i < |s| && GrammarString(s, i, control).Some?
    ensures ReadString(s, i) == GrammarString(s, i, control)
  {
    hide GrammarChars, StringEnd, Unescape;
    GrammarCharsRead(s, i + 1, control);
  }

  // ----- what the parser reads beyond the grammar -----

  /** Every \\u that the second scan meets has its four digits in front of the end. */
  predicate Clean(s: Bytes, i: nat, end: nat)
    requires end < |s|
    decreases end - i
  {
    if i >= end then true
    else if s[i] != BACKSLASH then Clean(s, i + 1, end)
    else if s[i + 1] == LOWER_U then
      && Digits4(s, i + 2) && i + 6 <= end
      && (ReadLiteral(s, i, end).Some? ==> Clean(s, i + ReadLiteral(s, i, end).value.length, end))
    else Clean(s, i + 2, end)
  }

  /** Where the second scan stops. */
  function Stop(s: Bytes, i: nat, end: nat): nat
    requires end < |s|
    decreases end - i
  {
    if i >= end then i
    else if s[i] != BACKSLASH then Stop(s, i + 1, end)
    else if s[i + 1] == LOWER_U then
      match ReadLiteral(s, i, end)
      case None => i
      case Some(lit) => Stop(s, i + lit.length, end)
    else if Escaped(s[i + 1]).None? then i
    else Stop(s, i + 2, end)
  }

  lemma CleanUnit(s: Bytes, i: nat, end: nat)
    requires end < |s| && i < end && StringEnd(s, i) == Some(end) && s[i] == BACKSLASH && s[i + 1] == LOWER_U
    requires Clean(s, i, end)
    ensures GrammarUnit(s, i) == ReadLiteral(s, i, end)
    ensures ReadLiteral(s, i, end).Some? ==> StringEnd(s, i + ReadLiteral(s, i, end).value.length) == Some(end)
  {
    hide Hex4, Unit, Hexadecimal, Clean;
    CleanDigits(s, i, end);
    SameUnits(s, i + 2);
    if i + 12 <= |s| { SameUnits(s, i + 8); }
    PairDigits(s, i, end);
    if GrammarUnit(s, i).Some? { UnitScanned(s, i); }
  }

  lemma CleanDigits(s: Bytes, i: nat, end: nat)
    requires end < |s| && i < end && s[i] == BACKSLASH && s[i + 1] == LOWER_U && Clean(s, i, end)
    ensures Digits4(s, i + 2) && i + 6 <= end
    ensures ReadLiteral(s, i, end).Some? ==> Clean(s, i + ReadLiteral(s, i, end).value.length, end)
  {
  }

  /** A second unit that is a low surrogate has four digits, since other text reads as 0; and
      when the grammar finds one, it lies in front of the end. */
  lemma PairDigits(s: Bytes, i: nat, end: nat)
    requires end < |s| && i + 6 <= end && StringEnd(s, i) == Some(end) && s[i] == BACKSLASH && s[i + 1] == LOWER_U
    requires Digits4(s, i + 2)
    ensures i + 12 <= |s| && 0xdc00 <= Hex4(s, i + 8) ==> Digits4(s, i + 8)
    ensures Digits4(s, i + 8) && s[i + 6] == BACKSLASH && s[i + 7] == LOWER_U ==> i + 12 <= end
  {
    DigitsPlain(s, i + 2);
    assert StringEnd(s, i) == StringEnd(s, i + 2) == StringEnd(s, i + 6);
    if Digits4(s, i + 8) && s[i + 6] == BACKSLASH && s[i + 7] == LOWER_U {
      DigitsPlain(s, i + 8);
      assert StringEnd(s, i + 6) == StringEnd(s, i + 8) == StringEnd(s, i + 12);
    }
  }

  /** On clean text the two scans agree with the grammar, value for value and failure for
      failure, and the second stops exactly at the closing quote. */
  lemma {:induction false} CleanCharsRead(s: Bytes, i: nat, end: nat)
    requires end < |s| && i <= end && StringEnd(s, i) == Some(end) && Clean(s, i, end)
    ensures GrammarChars(s, i, true)
      == if Unescape(s, i, end).Some? then Some((Unescape(s, i, end).value, end)) else None
    ensures Unescape(s, i, end).Some? ==> Stop(s, i, end) == end
    decreases end - i
  {
    hide GrammarUnit, ReadLiteral, Escaped, GrammarEscape, Utf8;
    if i < end {
      if s[i] != BACKSLASH {
        CleanCharsRead(s, i + 1, end);
      } else if s[i + 1] == LOWER_U {
        CleanUnit(s, i, end);
        CleanDigits(s, i, end);
        var r := ReadLiteral(s, i, end);
        if r.Some? { CleanCharsRead(s, i + r.value.length, end); }
      } else {
        SameEscapes(s[i + 1]);
        CleanCharsRead(s, i + 2, end);
      }
    }
  }

  /** For every text: if it is clean, the parser reads a string exactly when the grammar does,
      and then the same one. */
  lemma CleanStringRead(s: Bytes, i: nat)
    requires i < |s| && s[i] == QUOTE
    requires StringEnd(s, i + 1).Some? ==> Clean(s, i + 1, StringEnd(s, i + 1).value)
    ensures ReadString(s, i) == GrammarString(s, i, true)
  {
    hide GrammarChars, StringEnd, Unescape, Clean;
    if StringEnd(s, i + 1).Some? {
      CleanCharsRead(s, i + 1, StringEnd(s, i + 1).value);
    } else if GrammarChars(s, i + 1, true).Some? {
      GrammarCharsRead(s, i + 1, true);
    }
  }

  /** Text that the grammar allows is clean. */
  lemma {:induction false} GrammarIsClean(s: Bytes, i: nat, control: bool)
    requires i <= |s| && GrammarChars(s, i, control).Some?
    ensures Clean(s, i, GrammarChars(s, i, control).value.1)
    decreases |s| - i
  {
    hide GrammarUnit, ReadLiteral, Escaped, GrammarEscape, Utf8, Digits4;
    var end := GrammarChars(s, i, control).value.1;
    if i < end {
      if s[i] != BACKSLASH {
        GrammarIsClean(s, i + 1, control);
      } else if s[i + 1] == LOWER_U {
        var lit := GrammarUnit(s, i).value;
        GrammarIsClean(s, i + lit.length, control);
        UnitRead(s, i, end);
        UnitHasDigits(s, i);
      } else {
        GrammarIsClean(s, i + 2, control);
      }
    }
  }

  lemma UncleanRefused(s: Bytes, i: nat, end: nat, control: bool)
    requires i <= |s| && StringEnd(s, i) == Some(end) && end < |s| && !Clean(s, i, end)
    ensures GrammarChars(s, i, control) == None
  {
    hide GrammarChars, StringEnd, Unescape, Clean;
    if GrammarChars(s, i, control).Some? {
      GrammarIsClean(s, i, control);
      GrammarCharsRead(s, i, control);
    }
  }

  lemma UnitHasDigits(s: Bytes, i: nat)
    requires GrammarUnit(s, i).Some?
    ensures Digits4(s, i + 2)
  {
  }

  /** No byte below a space. */
  ghost predicate NoControl(s: Bytes, i: nat, end: nat)
    requires end <= |s|
  {
    forall k :: i <= k < end ==> s[k] >= 0x20
  }

  /** What only unescaped control characters keep out of the grammar. */
  lemma {:induction false} ControlRefused(s: Bytes, i: nat)
    requires i <= |s| && GrammarChars(s, i, true).Some?
    ensures GrammarChars(s, i, false)
      == if NoControl(s, i, GrammarChars(s, i, true).value.1) then GrammarChars(s, i, true) else None
    decreases |s| - i
  {
    hide GrammarUnit, GrammarEscape, Utf8;
    var end := GrammarChars(s, i, true).value.1;
    if i < end {
      if s[i] != BACKSLASH {
        ControlRefused(s, i + 1);
      } else if s[i + 1] == LOWER_U {
        var n := GrammarUnit(s, i).value.length;
        ControlRefused(s, i + n);
        UnitPrintable(s, i);
        assert NoControl(s, i, end) <==> NoControl(s, i + n, end);
      } else {
        ControlRefused(s, i + 2);
        EscapedPrintable(s[i + 1]);
        assert NoControl(s, i, end) <==> NoControl(s, i + 2, end);
      }
    }
  }

  lemma UnitPrintable(s: Bytes, i: nat)
    requires i + 1 < |s| && s[i] == BACKSLASH && s[i + 1] == LOWER_U && GrammarUnit(s, i).Some?
    ensures NoControl(s, i, i + GrammarUnit(s, i).value.length)
  {
    hide Unit;
  }

  lemma EscapedPrintable(b: Byte)
    requires GrammarEscape(b).Some?
    ensures b >= 0x20
  {
  }

  /** The main result: a text that the parser accepts as a string is a string of the grammar,
      read with its value, exactly when it is clean and without control characters; and
      exactly when it is clean if these are admitted. */
  lemma AcceptedIffClean(s: Bytes, i: nat)
    requires i < |s| && ReadString(s, i).Some?
    ensures StringEnd(s, i + 1).Some?
    ensures var end := StringEnd(s, i + 1).value;
      && (ReadString(s, i) == GrammarString(s, i, true) <==> Clean(s, i + 1, end))
      && (ReadString(s, i) == GrammarString(s, i, false) <==> Clean(s, i + 1, end) && NoControl(s, i + 1, end))
  {
    hide GrammarChars, StringEnd, Unescape, Clean, NoControl;
    var end := StringEnd(s, i + 1).value;
    if Clean(s, i + 1, end) {
      CleanStringRead(s, i);
      ControlRefused(s, i + 1);
      GrammarCharsRead(s, i + 1, true);
    } else {
      UncleanRefused(s, i + 1, end, true);
      UncleanRefused(s, i + 1, end, false);
    }
  }

  /** On any text the second scan stops at the closing quote or right behind it. */
  lemma {:induction false} StopBound(s: Bytes, i: nat, end: nat)
    requires end < |s| && i <= end + 1 && Unescape(s, i, end).Some?
    ensures end <= Stop(s, i, end) <= end + 1
    decreases end - i
  {
    hide ReadLiteral, Escaped, Utf8;
    if i < end {
      if s[i] != BACKSLASH {
        StopBound(s, i + 1, end);
      } else if s[i + 1] == LOWER_U {
        StopBound(s, i + ReadLiteral(s, i, end).value.length, end);
      } else {
        StopBound(s, i + 2, end);
      }
    }
  }

  /** A first unit that is not four digits is taken for NUL exactly when six bytes remain. */
  lemma NonDigitUnit(s: Bytes, i: nat, end: nat)
    requires i <= end <= |s| && !Digits4(s, i + 2)
    ensures ReadLiteral(s, i, end) == if end - i >= 6 then Some(Literal(6, 0)) else None
  {
  }

  /** "\\uzzzz" is read as one NUL. */
  lemma NonDigitsReadAsNul()
    ensures var s: Bytes := [QUOTE, BACKSLASH, LOWER_U, 0x7a, 0x7a, 0x7a, 0x7a, QUOTE];
      ReadString(s, 0) == Some(([NUL], 8)) && GrammarString(s, 0, true) == None
  {
    var s: Bytes := [QUOTE, BACKSLASH, LOWER_U, 0x7a, 0x7a, 0x7a, 0x7a, QUOTE];
    assert StringEnd(s, 7) == Some(7);
    assert StringEnd(s, 3) == StringEnd(s, 4) == StringEnd(s, 5) == StringEnd(s, 6) == StringEnd(s, 7);
    assert StringEnd(s, 1) == StringEnd(s, 3);
    NonDigitUnit(s, 1, 7);
    assert Unescape(s, 7, 7) == Some([]);
    assert Utf8(0) + [] == [NUL];
    assert Unescape(s, 1, 7) == Prepend(Utf8(0), Unescape(s, 7, 7));
    assert GrammarUnit(s, 1) == None;
    assert GrammarChars(s, 1, true) == None;
  }

  /** "\\uabc\\\\" is read as a NUL and a quote: the misaligned second scan takes the last
      backslash and the closing quote for an escape and stops behind it. */
  lemma MisalignedEscapeUsesQuote()
    ensures var s: Bytes := [QUOTE, BACKSLASH, LOWER_U, 0x61, 0x62, 0x63, BACKSLASH, BACKSLASH, QUOTE];
      && ReadString(s, 0) == Some(([NUL, QUOTE], 9)) && GrammarString(s, 0, true) == None
      && Stop(s, 1, 8) == 9
  {
    var s: Bytes := [QUOTE, BACKSLASH, LOWER_U, 0x61, 0x62, 0x63, BACKSLASH, BACKSLASH, QUOTE];
    assert StringEnd(s, 8) == Some(8);
    assert StringEnd(s, 6) == StringEnd(s, 8);
    assert StringEnd(s, 3) == StringEnd(s, 4) == StringEnd(s, 5) == StringEnd(s, 6);
    assert StringEnd(s, 1) == StringEnd(s, 3);
    NonDigitUnit(s, 1, 8);
    assert Unescape(s, 9, 8) == Some([]);
    assert [QUOTE] + [] == [QUOTE] && Utf8(0) + [QUOTE] == [NUL, QUOTE];
    assert Unescape(s, 7, 8) == Prepend([QUOTE], Unescape(s, 9, 8));
    assert Unescape(s, 1, 8) == Prepend(Utf8(0), Unescape(s, 7, 8));
    assert Stop(s, 7, 8) == Stop(s, 9, 8) == 9;
    assert HexDigit(s[6]) == None;
    assert GrammarUnit(s, 1) == None;
    assert GrammarChars(s, 1, true) == None;
  }
}
