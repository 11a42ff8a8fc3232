/**
 What the machine's words, operators and operation codes mean, said without the definitions
 that the interpreter uses: a bit is a remainder of a quotient, a code is a number.
 */
module WordLaws {
  import opened Basics
  import opened Machine

  // ----- bits -----

  /** Bit i, by division. */
  predicate Bit(a: int, i: nat) { a / Pow2(i) % 2 == 1 }

  lemma BitZero(a: nat)
    ensures Bit(a, 0) <==> a % 2 == 1
  {
    assert Pow2(0) == 1;
  }

  lemma QuotientOfQuotient(a: nat, m: nat)
    requires m > 0
    ensures a / (2 * m) == a / 2 / m
  {
    var q := a / 2 / m;
    var s := a / 2 - q * m;
    assert 0 <= s < m;
    assert a == 2 * (q * m + s) + a % 2;
    var t := 2 * s + a % 2;
    assert a == q * (2 * m) + t && 0 <= t < 2 * m;
    QuotientIs(a, 2 * m, q, t);
  }

  lemma QuotientIs(a: nat, d: nat, q: nat, t: nat)
    requires d > 0 && a == q * d + t && t < d
    ensures a / d == q && a % d == t
  {
    var p := a / d;
    assert a == p * d + a % d;
    if p < q {
      Times(p + 1, q, d);
      assert false;
    } else if p > q {
      Times(q + 1, p, d);
      assert false;
    }
  }

  lemma Times(m: nat, n: nat, d: nat)
    requires m <= n
    ensures m * d <= n * d
  {
  }

  lemma BitNext(a: nat, i: nat)
    ensures Bit(a, i + 1) == Bit(a / 2, i)
  {
    QuotientOfQuotient(a, Pow2(i));
  }

  /** Doubling moves every bit up by one. */
  lemma BitDoubled(a: nat, i: nat)
    ensures Bit(2 * a, i) == (i > 0 && Bit(a, i - 1))
    ensures Bit(2 * a + 1, i) == (i == 0 || Bit(a, i - 1))
  {
    if i == 0 {
      BitZero(2 * a);
      BitZero(2 * a + 1);
    } else {
      BitNext(2 * a, i - 1);
      BitNext(2 * a + 1, i - 1);
    }
  }

  lemma {:induction false} HighBitsClear(a: nat, i: nat)
    requires a < Pow2(i)
    ensures !Bit(a, i)
  {
    assert a / Pow2(i) == 0;
  }

  lemma WordBits(a: Word, i: nat)
    requires i >= 32
    ensures !Bit(a, i)
  {
    Pow2Values();
    Pow2Grows(32, i);
    HighBitsClear(a, i);
  }

  lemma Pow2Values()
    ensures Pow2(31) == 0x8000_0000 && Pow2(32) == WORD_SIZE
  {
    assert Pow2(8) == 0x100;
    assert Pow2(16) == 0x1_0000;
    assert Pow2(24) == 0x100_0000;
  }

  lemma {:induction false} Pow2Grows(m: nat, n: nat)
    requires m <= n
    ensures Pow2(m) <= Pow2(n)
    decreases n - m
  {
    if m < n { Pow2Grows(m + 1, n); }
  }

  /** Two words with the same bits are the same. */
  lemma {:induction false} SameBits(a: nat, b: nat, n: nat)
    requires a < Pow2(n) && b < Pow2(n) && forall i :: 0 <= i < n ==> Bit(a, i) == Bit(b, i)
    ensures a == b
  {
    if n > 0 {
      BitZero(a);
      BitZero(b);
      assert Bit(a, 0) == Bit(b, 0);
      forall i | 0 <= i < n - 1 ensures Bit(a / 2, i) == Bit(b / 2, i) {
        BitNext(a, i);
        BitNext(b, i);
        assert Bit(a, i + 1) == Bit(b, i + 1);
      }
      SameBits(a / 2, b / 2, n - 1);
    }
  }

  // ----- bitwise operators -----

  lemma {:induction false} BitwiseBit(f: (bool, bool) -> bool, a: nat, b: nat, n: nat, i: nat)
    requires i < n
    ensures Bit(Bitwise(f, a, b, n), i) == f(Bit(a, i), Bit(b, i))
    decreases n
  {
    var rest := Bitwise(f, a / 2, b / 2, n - 1);
    BitDoubled(rest, i);
    if i == 0 {
      BitZero(a);
      BitZero(b);
    } else {
      BitwiseBit(f, a / 2, b / 2, n - 1, i - 1);
      BitNext(a, i - 1);
      BitNext(b, i - 1);
    }
  }

  /** Every bit of a bitwise operation is the operation on the operands' bits. */
  lemma BitwiseLaws(a: Word, b: Word, i: nat)
    requires i < 32
    ensures Bit(Compute(And, a, b), i) == (Bit(a, i) && Bit(b, i))
    ensures Bit(Compute(Or, a, b), i) == (Bit(a, i) || Bit(b, i))
    ensures Bit(Compute(Xor, a, b), i) == (Bit(a, i) != Bit(b, i))
  {
    hide Bitwise, Bit;
    BitwiseBit((p, q) => p && q, a, b, 32, i);
    BitwiseBit((p, q) => p || q, a, b, 32, i);
    BitwiseBit((p, q) => p != q, a, b, 32, i);
  }

  lemma {:induction false} NonzeroHasBit(a: nat, n: nat)
    requires a < Pow2(n)
    ensures a != 0 <==> exists i :: 0 <= i < n && Bit(a, i)
  {
    if a == 0 {
      forall i | 0 <= i < n ensures !Bit(a, i) {}
    } else if !(exists i :: 0 <= i < n && Bit(a, i)) {
      forall i | 0 <= i < n ensures Bit(a, i) == Bit(0, i) {}
      SameBits(a, 0, n);
    }
  }

  /** What the four tests say. */
  lemma TestLaws(a: Word, b: Word)
    ensures Test(Eq, a, b) <==> forall i :: 0 <= i < 32 ==> Bit(a, i) == Bit(b, i)
    ensures Test(Ge, a, b) <==> Compute(Sub, a, b) + b == a
    ensures Test(Gt, a, b) <==> Compute(Sub, a, b) + b == a && a != b
    ensures Test(Set, a, b) <==> exists i :: 0 <= i < 32 && Bit(a, i) && Bit(b, i)
  {
    hide Bit, BitAnd;
    Pow2Values();
    if forall i :: 0 <= i < 32 ==> Bit(a, i) == Bit(b, i) { SameBits(a, b, 32); }
    NonzeroHasBit(Compute(And, a, b), 32);
    forall i | 0 <= i < 32 ensures Bit(Compute(And, a, b), i) == (Bit(a, i) && Bit(b, i)) { BitwiseLaws(a, b, i); }
  }

  // ----- arithmetic -----

  /** Subtraction undoes addition, and is exact when it does not wrap. */
  lemma AddSubLaws(a: Word, b: Word)
    ensures Compute(Sub, Compute(Add, a, b), b) == a && Compute(Add, Compute(Sub, a, b), b) == a
    ensures a >= b ==> Compute(Sub, a, b) + b == a
    ensures a + b < 0x1_0000_0000 ==> Compute(Add, a, b) == a + b
  {
  }

  /** Multiplication is repeated addition. */
  lemma MulLaws(a: Word, b: Word)
    ensures Compute(Mul, a, 0) == 0 && Compute(Mul, a, 1) == a
    ensures b + 1 < 0x1_0000_0000 ==> Compute(Mul, a, b + 1) == Compute(Add, Compute(Mul, a, b), a)
  {
    hide Compute, Wrap;
    ProductIs(a, 0);
    ProductIs(a, 1);
    SmallWrap(0);
    SmallWrap(a);
    if b + 1 < WORD_SIZE {
      ProductIs(a, b);
      ProductIs(a, b + 1);
      NextProduct(a, b);
      WrapAdd(a * b, a);
      SumIs(Compute(Mul, a, b), a);
    }
  }

  lemma ProductIs(a: Word, b: Word)
    ensures Compute(Mul, a, b) == Wrap(a * b)
  {
    hide Wrap;
  }

  lemma SumIs(a: Word, b: Word)
    ensures Compute(Add, a, b) == Wrap(a + b)
  {
    hide Wrap;
  }

  lemma SmallWrap(a: Word)
    ensures Wrap(a) == a
  {
  }

  lemma NextProduct(a: int, b: int)
    ensures a * (b + 1) == a * b + a && a * 0 == 0 && a * 1 == a
  {
  }

  lemma WrapAdd(m: nat, n: nat)
    ensures Wrap(Wrap(m) + n) == Wrap(m + n)
  {
    var q, w := m / WORD_SIZE, Wrap(m);
    var k := (w + n) / WORD_SIZE;
    QuotientIs(m + n, WORD_SIZE, q + k, Wrap(w + n));
  }

  /** Division and remainder are those of unsigned numbers. */
  lemma DivModLaws(a: Word, b: Word)
    requires b != 0
    ensures Compute(Div, a, b) * b + Compute(Mod, a, b) == a && Compute(Mod, a, b) < b
  {
    assert a / b * b == b * (a / b);
  }

  lemma HalfWord(v: Word, i: nat)
    requires i < 31
    ensures Bit(v % 0x8000_0000, i) == Bit(v, i)
    decreases i
  {
    if i == 0 {
      BitZero(v % 0x8000_0000);
      BitZero(v);
    } else {
      HalfBits(v, 31, i);
    }
  }

  /** Dropping the high bits keeps the low ones. */
  lemma {:induction false} HalfBits(v: nat, n: nat, i: nat)
    requires i < n
    ensures Pow2(31) == 0x8000_0000 && Bit(v % Pow2(n), i) == Bit(v, i)
    decreases n
  {
    Pow2Values();
    HalfOfRest(v, Pow2(n - 1));
    if i == 0 {
      BitZero(v % Pow2(n));
      BitZero(v);
    } else {
      BitNext(v % Pow2(n), i - 1);
      BitNext(v, i - 1);
      HalfBits(v / 2, n - 1, i - 1);
    }
  }

  lemma HalfOfRest(v: nat, m: nat)
    requires m > 0
    ensures v % (2 * m) / 2 == v / 2 % m && v % (2 * m) % 2 == v % 2
  {
    QuotientOfQuotient(v, m);
    var q := v / (2 * m);
    assert v == q * (2 * m) + v % (2 * m);
    assert v / 2 == q * m + v / 2 % m;
    assert q * (2 * m) == 2 * (q * m);
  }

  /** One more place to the left. */
  lemma DoubledWord(v: Word, i: nat)
    requires i < 32
    ensures Bit(Wrap(2 * v), i) == (i > 0 && Bit(v, i - 1))
  {
    assert Wrap(2 * v) == 2 * (v % 0x8000_0000);
    BitDoubled(v % 0x8000_0000, i);
    if i > 0 { HalfWord(v, i - 1); }
  }

  lemma {:induction false} ShiftLeftBit(a: Word, n: nat, i: nat)
    requires n < 32 && i < 32
    ensures Bit(Compute(Lsh, a, n), i) == (i >= n && Bit(a, i - n))
    decreases n
  {
    hide Bit, Compute, Wrap;
    if n == 0 {
      ShiftByNone(a);
    } else {
      ShiftByOneMore(a, n);
      DoubledWord(Compute(Lsh, a, n - 1), i);
      if i > 0 { ShiftLeftBit(a, n - 1, i - 1); }
    }
  }

  lemma ShiftByNone(a: Word)
    ensures Compute(Lsh, a, 0) == a
  {
    assert Pow2(0) == 1;
  }

  lemma ShiftByOneMore(a: Word, n: nat)
    requires 0 < n < 32
    ensures Compute(Lsh, a, n) == Wrap(2 * Compute(Lsh, a, n - 1))
  {
    hide Wrap;
    var m := a * Pow2(n - 1);
    Doubling(a, Pow2(n - 1));
    WrapDouble(m);
  }

  lemma Doubling(a: nat, k: nat)
    ensures a * (2 * k) == 2 * (a * k)
  {
  }

  lemma WrapDouble(m: nat)
    ensures Wrap(2 * Wrap(m)) == Wrap(2 * m)
  {
    var q, w := m / WORD_SIZE, Wrap(m);
    if 2 * w < WORD_SIZE {
      QuotientIs(2 * m, WORD_SIZE, 2 * q, 2 * w);
    } else {
      QuotientIs(2 * m, WORD_SIZE, 2 * q + 1, 2 * w - WORD_SIZE);
      QuotientIs(2 * w, WORD_SIZE, 1, 2 * w - WORD_SIZE);
    }
  }

  lemma {:induction false} ShiftRightBit(a: nat, n: nat, i: nat)
    ensures Bit(a / Pow2(n), i) == Bit(a, i + n)
    decreases n
  {
    if n == 0 {
      assert Pow2(0) == 1;
    } else {
      QuotientOfQuotient(a, Pow2(n - 1));
      ShiftRightBit(a / 2, n - 1, i);
      BitNext(a, i + n - 1);
    }
  }

  /** A shift by n < 32 moves bit i to i + n or to i - n and fills up with zeros. */
  lemma ShiftLaws(a: Word, n: Word, i: nat)
    requires n < 32 && i < 32
    ensures Bit(Compute(Lsh, a, n), i) == (i >= n && Bit(a, i - n))
    ensures Bit(Compute(Rsh, a, n), i) == (i + n < 32 && Bit(a, i + n))
  {
    ShiftLeftBit(a, n, i);
    ShiftRightBit(a, n, i);
    if i + n >= 32 { WordBits(a, i + n); }
  }

  lemma {:induction false} MaskBit(n: nat, i: nat)
    ensures Pow2(n) >= 1 && (Bit(Pow2(n) - 1, i) <==> i < n)
    decreases n
  {
    if n == 0 {
      HighBitsClear(0, i);
    } else {
      assert Pow2(n) - 1 == 2 * (Pow2(n - 1) - 1) + 1;
      BitDoubled(Pow2(n - 1) - 1, i);
      if i > 0 { MaskBit(n - 1, i - 1); }
    }
  }

  /** A mask of n low bits takes a remainder. */
  lemma MaskIsRemainder(v: Word, n: nat)
    requires n <= 31
    ensures 0 < Pow2(n) <= 0x8000_0000 && Compute(And, v, Pow2(n) - 1) == v % Pow2(n)
  {
    hide Bit, Compute, BitAnd;
    Pow2Values();
    Pow2Grows(n, 31);
    Pow2Grows(n, 32);
    var m := Compute(And, v, Pow2(n) - 1);
    forall i | 0 <= i < 32 ensures Bit(m, i) == Bit(v % Pow2(n), i) {
      BitwiseLaws(v, Pow2(n) - 1, i);
      MaskBit(n, i);
      if i < n {
        HalfBits(v, n, i);
      } else {
        Pow2Grows(n, i);
        HighBitsClear(v % Pow2(n), i);
      }
    }
    SameBits(m, v % Pow2(n), 32);
  }

  // ----- single instructions -----

  /** NEG gives the number that adds up to 0. */
  lemma NegateLaw(p: Packet, r: Regs)
    ensures var e := Exec(Negate, 0, p, r); e == Next(r.(a := e.r.a)) && Compute(Add, e.r.a, r.a) == 0
  {
  }

  /** LDX MSH is 4 * (P[k:1] & 0xf). */
  lemma HeaderLengthLaw(k: Word, p: Packet, r: Regs)
    requires k < |p.data|
    ensures Exec(LdxMsh, k, p, r) == Next(r.(x := Compute(Mul, 4, Compute(And, p.data[k], 0xf))))
  {
    hide Compute, Wrap;
    var b: Word := p.data[k];
    MaskIsRemainder(b, 4);
    assert Pow2(4) == 16;
    ProductIs(4, b % 16);
    SmallWrap(4 * (b % 16));
  }

  // ----- packet bytes -----

  /** Loads are big-endian. */
  lemma ExtractLaws(p: Packet, i: nat)
    requires i < |p.data|
    ensures Extract(p, i, Byte1) == p.data[i]
    ensures i + 2 <= |p.data| ==> Extract(p, i, Half2) == Bytes2(p.data[i], p.data[i + 1])
    ensures i + 4 <= |p.data| ==>
      Extract(p, i, Word4) == 0x1_0000 * Bytes2(p.data[i], p.data[i + 1]) + Bytes2(p.data[i + 2], p.data[i + 3])
  {
    assert Octets(p, i, 0) == 0 && Octets(p, i, 1) == p.data[i];
    if i + 2 <= |p.data| { assert Octets(p, i, 2) == Bytes2(p.data[i], p.data[i + 1]); }
    if i + 4 <= |p.data| { assert Octets(p, i, 3) == 0x100 * Octets(p, i, 2) + p.data[i + 2]; }
  }

  function Bytes2(high: int, low: int): int { 0x100 * high + low }

  // ----- operation codes -----

  /** 32-bit words and 16 scratch registers. */
  lemma Dimensions(w: Word)
    ensures 0 <= w <= 0xffff_ffff && MEMWORDS == 16
  {
  }

  /** The codes of the instruction set as numbers, and no others. */
  const LOADS: map<int, Op> := map[
    0x20 := LdAbs(Word4), 0x28 := LdAbs(Half2), 0x30 := LdAbs(Byte1),
    0x40 := LdInd(Word4), 0x48 := LdInd(Half2), 0x50 := LdInd(Byte1),
    0x80 := LdLen, 0x00 := LdImm, 0x60 := LdMem,
    0x81 := LdxLen, 0xb1 := LdxMsh, 0x01 := LdxImm, 0x61 := LdxMem,
    0x02 := StA, 0x03 := StX, 0x07 := AtoX, 0x87 := XtoA, 0x06 := RetK, 0x16 := RetA]

  const JUMPS: map<int, Op> := map[
    0x05 := Ja, 0x15 := JmpK(Eq), 0x25 := JmpK(Gt), 0x35 := JmpK(Ge), 0x45 := JmpK(Set),
    0x1d := JmpX(Eq), 0x2d := JmpX(Gt), 0x3d := JmpX(Ge), 0x4d := JmpX(Set)]

  const OPERATORS: map<int, Op> := map[
    0x04 := AluK(Add), 0x14 := AluK(Sub), 0x24 := AluK(Mul), 0x34 := AluK(Div), 0x94 := AluK(Mod),
    0x44 := AluK(Or), 0x54 := AluK(And), 0xa4 := AluK(Xor), 0x64 := AluK(Lsh), 0x74 := AluK(Rsh),
    0x0c := AluX(Add), 0x1c := AluX(Sub), 0x2c := AluX(Mul), 0x3c := AluX(Div), 0x9c := AluX(Mod),
    0x4c := AluX(Or), 0x5c := AluX(And), 0xac := AluX(Xor), 0x6c := AluX(Lsh), 0x7c := AluX(Rsh),
    0x84 := Negate]

  lemma LoadCodes(code: int)
    requires code % 8 != 4 && code % 8 != 5
    ensures Decode(code) == if code in LOADS then LOADS[code] else Bad
  {
    hide DecodeAlu, DecodeJmp;
  }

  lemma JumpCodes(code: int)
    requires code % 8 == 5
    ensures Decode(code) == if code in JUMPS then JUMPS[code] else Bad
  {
  }

  lemma OperatorCodes(code: int)
    requires code % 8 == 4
    ensures Decode(code) == if code in OPERATORS then OPERATORS[code] else Bad
  {
    hide Decode;
    AluClass(code);
  }
}
