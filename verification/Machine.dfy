/**
 The BPF machine: instruction codes, packets, registers, and the interpreter of
 deps/libpcap/bpf_filter.c.

 Registers are unsigned 32-bit words that wrap around.  Where C leaves the effect of an
 instruction undefined (a scratch index outside mem[], a constant division by zero) the
 model goes to `Faulted`, so that "never faults" is a statement one can prove.
 */
module Machine {
  import opened Basics

  type Word = w: int | 0 <= w < 0x1_0000_0000

  const WORD_SIZE := 0x1_0000_0000
  const MEMWORDS := 16

  // ----- instruction codes -----

  // classes
  const LD := 0x00
  const LDX := 0x01
  const ST := 0x02
  const STX := 0x03
  const ALU := 0x04
  const JMP := 0x05
  const RET := 0x06
  const MISC := 0x07
  // load sizes
  const W := 0x00
  const H := 0x08
  const B := 0x10
  // load modes
  const IMM := 0x00
  const ABS := 0x20
  const IND := 0x40
  const MEM := 0x60
  const LEN := 0x80
  const MSH := 0xa0
  // arithmetic
  const ADD := 0x00
  const SUB := 0x10
  const MUL := 0x20
  const DIV := 0x30
  const OR := 0x40
  const AND := 0x50
  const LSH := 0x60
  const RSH := 0x70
  const NEG := 0x80
  const MOD := 0x90
  const XOR := 0xa0
  // branches
  const JA := 0x00
  const JEQ := 0x10
  const JGT := 0x20
  const JGE := 0x30
  const JSET := 0x40
  // operand source, return value, transfers
  const K := 0x00
  const X := 0x08
  const A := 0x10
  const TAX := 0x00
  const TXA := 0x80

  /** A deleted statement; it is skipped when code is laid out. */
  const NOP := -1

  /** An instruction of a finished program. */
  datatype Insn = Insn(code: int, jt: Byte, jf: Byte, k: Word)

  /** A statement of a block that is still part of a flow graph. */
  datatype Stmt = Stmt(code: int, k: Word)

  datatype LoadSize = Word4 | Half2 | Byte1

  datatype AluOp = Add | Sub | Mul | Div | Mod | And | Or | Xor | Lsh | Rsh

  datatype Cmp = Eq | Gt | Ge | Set

  /** The instructions the interpreter's switch knows. */
  datatype Op =
    | RetK | RetA
    | LdAbs(size: LoadSize) | LdInd(size: LoadSize) | LdLen | LdImm | LdMem
    | LdxLen | LdxMsh | LdxImm | LdxMem
    | StA | StX
    | Ja | JmpK(cmp: Cmp) | JmpX(cmp: Cmp)
    | AluX(alu: AluOp) | AluK(alu: AluOp) | Negate
    | AtoX | XtoA
    | Bad

  function DecodeAlu(code: int): Op {
    if code == ALU + ADD + X then AluX(Add)
    else if code == ALU + SUB + X then AluX(Sub)
    else if code == ALU + MUL + X then AluX(Mul)
    else if code == ALU + DIV + X then AluX(Div)
    else if code == ALU + MOD + X then AluX(Mod)
    else if code == ALU + AND + X then AluX(And)
    else if code == ALU + OR + X then AluX(Or)
    else if code == ALU + XOR + X then AluX(Xor)
    else if code == ALU + LSH + X then AluX(Lsh)
    else if code == ALU + RSH + X then AluX(Rsh)
    else if code == ALU + ADD + K then AluK(Add)
    else if code == ALU + SUB + K then AluK(Sub)
    else if code == ALU + MUL + K then AluK(Mul)
    else if code == ALU + DIV + K then AluK(Div)
    else if code == ALU + MOD + K then AluK(Mod)
    else if code == ALU + AND + K then AluK(And)
    else if code == ALU + OR + K then AluK(Or)
    else if code == ALU + XOR + K then AluK(Xor)
    else if code == ALU + LSH + K then AluK(Lsh)
    else if code == ALU + RSH + K then AluK(Rsh)
    else if code == ALU + NEG then Negate
    else Bad
  }

  function DecodeJmp(code: int): Op {
    if code == JMP + JA then Ja
    else if code == JMP + JGT + K then JmpK(Gt)
    else if code == JMP + JGE + K then JmpK(Ge)
    else if code == JMP + JEQ + K then JmpK(Eq)
    else if code == JMP + JSET + K then JmpK(Set)
    else if code == JMP + JGT + X then JmpX(Gt)
    else if code == JMP + JGE + X then JmpX(Ge)
    else if code == JMP + JEQ + X then JmpX(Eq)
    else if code == JMP + JSET + X then JmpX(Set)
    else Bad
  }

  function DecodeLoad(code: int): Op {
    if code == LD + W + ABS then LdAbs(Word4)
    else if code == LD + H + ABS then LdAbs(Half2)
    else if code == LD + B + ABS then LdAbs(Byte1)
    else if code == LD + W + LEN then LdLen
    else if code == LDX + W + LEN then LdxLen
    else if code == LD + W + IND then LdInd(Word4)
    else if code == LD + H + IND then LdInd(Half2)
    else if code == LD + B + IND then LdInd(Byte1)
    else if code == LDX + MSH + B then LdxMsh
    else if code == LD + IMM then LdImm
    else if code == LDX + IMM then LdxImm
    else if code == LD + MEM then LdMem
    else if code == LDX + MEM then LdxMem
    else Bad
  }

  /** The case of the interpreter's switch that a code selects; `Bad` is its default. */
  function Decode(code: int): Op {
    if code == RET + K then RetK
    else if code == RET + A then RetA
    else if code == ST then StA
    else if code == STX then StX
    else if code == MISC + TAX then AtoX
    else if code == MISC + TXA then XtoA
    else if code % 8 == ALU then DecodeAlu(code)
    else if code % 8 == JMP then DecodeJmp(code)
    else DecodeLoad(code)
  }

  lemma AluClass(code: int)
    requires code % 8 == ALU
    ensures Decode(code) == DecodeAlu(code)
  {
  }

  /** Operations that neither branch nor return. */
  predicate IsPlain(op: Op) {
    !(op.RetK? || op.RetA? || op.Ja? || op.JmpK? || op.JmpX? || op.Bad?)
  }

  // ----- arithmetic -----

  function Wrap(n: int): Word { n % WORD_SIZE }

  function Pow2(n: nat): (p: nat)
    ensures p > 0
  {
    if n == 0 then 1 else 2 * Pow2(n - 1)
  }

  /** Combine two words bit by bit, lowest bit first. */
  function Bitwise(f: (bool, bool) -> bool, a: nat, b: nat, n: nat): (r: nat)
    ensures r < Pow2(n)
  {
    if n == 0 then 0
    else 2 * Bitwise(f, a / 2, b / 2, n - 1) + if f(a % 2 == 1, b % 2 == 1) then 1 else 0
  }

  function Bitwise32(f: (bool, bool) -> bool, a: Word, b: Word): Word {
    assert Pow2(8) == 0x100;
    assert Pow2(16) == 0x1_0000;
    assert Pow2(24) == 0x100_0000;
    assert Pow2(32) == WORD_SIZE;
    Bitwise(f, a, b, 32)
  }

  function BitAnd(a: Word, b: Word): Word { Bitwise32((p, q) => p && q, a, b) }
  function BitOr(a: Word, b: Word): Word { Bitwise32((p, q) => p || q, a, b) }
  function BitXor(a: Word, b: Word): Word { Bitwise32((p, q) => p != q, a, b) }

  function ShiftLeft(a: Word, n: Word): Word {
    if n < 32 then Wrap(a * Pow2(n)) else 0
  }

  function ShiftRight(a: Word, n: Word): Word {
    if n < 32 then DivWord(a, Pow2(n)) else 0
  }

  function DivWord(a: Word, d: nat): (q: Word)
    requires d > 0
  {
    assert a / d <= a;
    a / d
  }

  /** Signed reading of a 32-bit word. */
  function Signed(w: Word): int {
    if w < 0x8000_0000 then w else w - WORD_SIZE
  }

  /** Binary arithmetic; the two divisions need a non-zero divisor. */
  function Compute(op: AluOp, a: Word, b: Word): Word
    requires op.Div? || op.Mod? ==> b != 0
  {
    match op
    case Add => Wrap(a + b)
    case Sub => Wrap(a - b)
    case Mul => Wrap(a * b)
    case Div => DivWord(a, b)
    case Mod => a % b
    case And => BitAnd(a, b)
    case Or => BitOr(a, b)
    case Xor => BitXor(a, b)
    case Lsh => ShiftLeft(a, b)
    case Rsh => ShiftRight(a, b)
  }

  function Test(cmp: Cmp, a: Word, b: Word): bool {
    match cmp
    case Eq => a == b
    case Gt => a > b
    case Ge => a >= b
    case Set => BitAnd(a, b) != 0
  }

  // ----- packets and registers -----

  /** The captured bytes of a packet and its length on the wire. */
  datatype PacketData = PacketData(data: seq<Byte>, wirelen: Word)
  type Packet = p: PacketData | |p.data| < 0x1_0000_0000 witness PacketData([], 0)

  datatype RegFile = RegFile(a: Word, x: Word, mem: seq<Word>)
  type Regs = r: RegFile | |r.mem| == MEMWORDS
    witness RegFile(0, 0, [0, 0, 0, 0, 0, 0, 0, 0, 0, 0, 0, 0, 0, 0, 0, 0])

  function SizeOf(s: LoadSize): nat {
    match s
    case Word4 => 4
    case Half2 => 2
    case Byte1 => 1
  }

  /** The unsigned number whose big-endian octets are the n bytes at offset i. */
  function Octets(p: Packet, i: nat, n: nat): (v: nat)
    requires i + n <= |p.data|
    ensures n <= 4 ==> v < [1, 0x100, 0x1_0000, 0x100_0000, 0x1_0000_0000][n]
  {
    if n == 0 then 0 else Octets(p, i, n - 1) * 0x100 + p.data[i + n - 1]
  }

  /** Big-endian read of 4, 2 or 1 bytes at offset i. */
  function Extract(p: Packet, i: nat, s: LoadSize): Word
    requires i + SizeOf(s) <= |p.data|
  {
    match s
    case Word4 => Octets(p, i, 4)
    case Half2 => Octets(p, i, 2)
    case Byte1 => p.data[i]
  }

  datatype Effect = Next(r: Regs) | Reject | Fault

  /** Load at an absolute offset: the bytes must have been captured. */
  function LoadAbs(p: Packet, k: Word, s: LoadSize, r: Regs): Effect {
    if k + SizeOf(s) > |p.data| then Reject else Next(r.(a := Extract(p, k, s)))
  }

  /** Load at offset x + k, which does not wrap. */
  function LoadInd(p: Packet, k: Word, s: LoadSize, r: Regs): Effect {
    if r.x + k + SizeOf(s) > |p.data| then Reject else Next(r.(a := Extract(p, r.x + k, s)))
  }

  /** Effect of one operation that neither branches nor returns. */
  function Exec(op: Op, k: Word, p: Packet, r: Regs): Effect
    requires IsPlain(op)
  {
    match op
    case LdAbs(s) => LoadAbs(p, k, s, r)
    case LdInd(s) => LoadInd(p, k, s, r)
    case LdLen => Next(r.(a := p.wirelen))
    case LdImm => Next(r.(a := k))
    case LdMem => if k < MEMWORDS then Next(r.(a := r.mem[k])) else Fault
    case LdxLen => Next(r.(x := p.wirelen))
    case LdxMsh => if k >= |p.data| then Reject else Next(r.(x := (p.data[k] % 16) * 4))
    case LdxImm => Next(r.(x := k))
    case LdxMem => if k < MEMWORDS then Next(r.(x := r.mem[k])) else Fault
    case StA => if k < MEMWORDS then Next(r.(mem := r.mem[k := r.a])) else Fault
    case StX => if k < MEMWORDS then Next(r.(mem := r.mem[k := r.x])) else Fault
    case AluX(op) =>
      if (op.Div? || op.Mod?) && r.x == 0 then Reject else Next(r.(a := Compute(op, r.a, r.x)))
    case AluK(op) =>
      if (op.Div? || op.Mod?) && k == 0 then Fault else Next(r.(a := Compute(op, r.a, k)))
    case Negate => Next(r.(a := Wrap(WORD_SIZE - r.a)))
    case AtoX => Next(r.(x := r.a))
    case XtoA => Next(r.(a := r.x))
  }

  // ----- the interpreter -----

  datatype Config = At(pc: int, r: Regs) | Done(v: Word) | Aborted | Faulted

  /** Where a conditional branch at pc goes. */
  function Branch(i: Insn, pc: int, taken: bool): int {
    pc + 1 + if taken then i.jt else i.jf
  }

  /** One turn of the interpreter's loop. */
  function Step(f: seq<Insn>, p: Packet, pc: int, r: Regs): Config {
    if !(0 <= pc < |f|) then Faulted
    else
      var i := f[pc];
      var op := Decode(i.code);
      if IsPlain(op) then
        match Exec(op, i.k, p, r)
        case Next(r') => At(pc + 1, r')
        case Reject => Done(0)
        case Fault => Faulted
      else if op.RetK? then Done(i.k)
      else if op.RetA? then Done(r.a)
      else if op.Ja? then At(pc + 1 + Signed(i.k), r)
      else if op.JmpK? then At(Branch(i, pc, Test(op.cmp, r.a, i.k)), r)
      else if op.JmpX? then At(Branch(i, pc, Test(op.cmp, r.a, r.x)), r)
      else Aborted
  }

  /** At most n turns of the loop. */
  function Steps(f: seq<Insn>, p: Packet, c: Config, n: nat): Config
    decreases n
  {
    if n == 0 || !c.At? then c else Steps(f, p, Step(f, p, c.pc, c.r), n - 1)
  }

  lemma {:induction false} StepsCompose(f: seq<Insn>, p: Packet, c: Config, m: nat, n: nat)
    ensures Steps(f, p, c, m + n) == Steps(f, p, Steps(f, p, c, m), n)
    decreases m
  {
    if m != 0 && c.At? {
      StepsCompose(f, p, Step(f, p, c.pc, c.r), m - 1, n);
    }
  }

  /** EXTRACT_LONG, EXTRACT_SHORT and a plain byte: the octets are put together by shifts. */
  method ReadBytes(p: Packet, i: nat, s: LoadSize) returns (v: Word)
    requires i + SizeOf(s) <= |p.data|
    ensures v == Extract(p, i, s)
  {
    var b0: int := p.data[i];
    assert Octets(p, i, 0) == 0 && Octets(p, i, 1) == b0;
    if s.Byte1? { return p.data[i]; }
    var b1: int := p.data[i + 1];
    assert Octets(p, i, 2) == 0x100 * b0 + b1;
    if s.Half2? { return 0x100 * b0 + b1; }
    var b2: int, b3: int := p.data[i + 2], p.data[i + 3];
    assert Octets(p, i, 3) == 0x1_0000 * b0 + 0x100 * b1 + b2;
    return 0x100_0000 * b0 + 0x1_0000 * b1 + 0x100 * b2 + b3;
  }

  /** Wrap-around of a sum or a difference of two words. */
  lemma WrapIs(n: int)
    requires -WORD_SIZE < n < 2 * WORD_SIZE
    ensures Wrap(n) == if n < 0 then n + WORD_SIZE else if n < WORD_SIZE then n else n - WORD_SIZE
  {
  }

  /** The interpreter's tests for an indirect load of each size, in unsigned 32-bit arithmetic:
      they come before the sum or a difference can wrap. */
  method InsideInd(x: Word, k: Word, buflen: Word, s: LoadSize) returns (ok: bool)
    ensures ok <==> x + k + SizeOf(s) <= buflen
  {
    hide Wrap;
    var sum := Wrap(x + k);
    WrapIs(x + k);
    WrapIs(buflen - k);
    WrapIs(buflen - x);
    WrapIs(buflen - sum);
    match s
    case Word4 => ok := !(k > buflen || x > Wrap(buflen - k) || 4 > Wrap(buflen - sum));
    case Half2 => ok := !(x > buflen || k > Wrap(buflen - x) || 2 > Wrap(buflen - sum));
    case Byte1 => ok := !(k >= buflen || x >= Wrap(buflen - k));
  }

  method InsideAbs(k: Word, buflen: Word, s: LoadSize) returns (ok: bool)
    ensures ok <==> k + SizeOf(s) <= buflen
  {
    match s
    case Word4 => ok := !(k > buflen || 4 > Wrap(buflen - k));
    case Half2 => ok := !(k > buflen || 2 > Wrap(buflen - k));
    case Byte1 => ok := !(k >= buflen);
  }

  /** Does the operation load bytes that were not captured? */
  predicate Beyond(op: Op, k: Word, p: Packet, x: Word) {
    match op
    case LdAbs(s) => k + SizeOf(s) > |p.data|
    case LdInd(s) => x + k + SizeOf(s) > |p.data|
    case LdxMsh => k + 1 > |p.data|
    case _ => false
  }

  predicate Divides(op: Op) { (op.AluX? || op.AluK?) && (op.alu.Div? || op.alu.Mod?) }

  predicate UsesScratch(op: Op) { op.LdMem? || op.LdxMem? || op.StA? || op.StX? }

  /** One operation with registers a, x and scratch memory updated in place.  It rejects the
      packet exactly when it reads beyond it or divides by a zero register, and is undefined
      exactly for a scratch index out of range and for a zero constant divisor. */
  method ExecInPlace(op: Op, k: Word, p: Packet, a: Word, x: Word, mem: array<Word>) returns (e: Effect)
    requires mem.Length == MEMWORDS && IsPlain(op)
    modifies mem
    ensures e == Exec(op, k, p, RegFile(a, x, old(mem[..])))
    ensures mem[..] == if e.Next? then e.r.mem else old(mem[..])
    ensures e.Reject? <==> Beyond(op, k, p, x) || (Divides(op) && op.AluX? && x == 0)
    ensures e.Fault? <==> (UsesScratch(op) && k >= MEMWORDS) || (Divides(op) && op.AluK? && k == 0)
    ensures !op.StA? && !op.StX? ==> mem[..] == old(mem[..])
  {
    hide Extract, Compute;
    var a', x' := a, x;
    var buflen: Word := |p.data|;
    if UsesScratch(op) && k >= MEMWORDS { return Fault; }
    match op {
      case LdAbs(s) =>
        var ok := InsideAbs(k, buflen, s);
        if !ok { return Reject; }
        a' := ReadBytes(p, k, s);
      case LdInd(s) =>
        var ok := InsideInd(x, k, buflen, s);
        if !ok { return Reject; }
        a' := ReadBytes(p, x + k, s);
      case LdLen => a' := p.wirelen;
      case LdImm => a' := k;
      case LdMem => a' := mem[k];
      case LdxLen => x' := p.wirelen;
      case LdxMsh =>
        if k >= buflen { return Reject; }
        x' := (p.data[k] % 16) * 4;
      case LdxImm => x' := k;
      case LdxMem => x' := mem[k];
      case StA => mem[k] := a;
      case StX => mem[k] := x;
      case AluX(alu) =>
        if (alu.Div? || alu.Mod?) && x == 0 { return Reject; }
        a' := Compute(alu, a, x);
      case AluK(alu) =>
        if (alu.Div? || alu.Mod?) && k == 0 { return Fault; }
        a' := Compute(alu, a, k);
      case Negate => a' := Wrap(0 - Signed(a));
      case AtoX => x' := a;
      case XtoA => a' := x;
    }
    return Next(RegFile(a', x', mem[..]));
  }

  /** The interpreter as the source runs it, with registers and scratch memory updated in
      place, for at most `budget` turns. */
  method Filter(f: seq<Insn>, p: Packet, mem: array<Word>, budget: nat) returns (c: Config)
    requires mem.Length == MEMWORDS
    modifies mem
    ensures c == Steps(f, p, At(0, RegFile(0, 0, old(mem[..]))), budget)
  {
    var a: Word, x: Word, pc := 0, 0, 0;
    var left := budget;
    while left > 0
      invariant Steps(f, p, At(pc, RegFile(a, x, mem[..])), left)
             == Steps(f, p, At(0, RegFile(0, 0, old(mem[..]))), budget)
    {
      if !(0 <= pc < |f|) { return Faulted; }
      var i := f[pc];
      var op := Decode(i.code);
      if IsPlain(op) {
        var e := ExecInPlace(op, i.k, p, a, x, mem);
        if e.Reject? { return Done(0); }
        if e.Fault? { return Faulted; }
        a, x, pc := e.r.a, e.r.x, pc + 1;
      } else if op.RetK? {
        return Done(i.k);
      } else if op.RetA? {
        return Done(a);
      } else if op.Ja? {
        pc := pc + 1 + Signed(i.k);
      } else if op.JmpK? {
        pc := Branch(i, pc, Test(op.cmp, a, i.k));
      } else if op.JmpX? {
        pc := Branch(i, pc, Test(op.cmp, a, x));
      } else {
        return Aborted;
      }
      left := left - 1;
    }
    return At(pc, RegFile(a, x, mem[..]));
  }
}
