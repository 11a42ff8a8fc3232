/**
 The program validator bpf_validate (deps/libpcap/bpf_filter.c) and what its acceptance
 guarantees about every run of the interpreter.
 */
module Validator {
  import opened Machine

  // The masks of pcap/bpf.h: & 0x07, & 0xe0, & 0xf0, & 0x08.
  function Class(code: int): nat { code % 8 }
  function Mode(code: nat): nat { code / 0x20 % 8 * 0x20 }
  function OpBits(code: nat): nat { code / 0x10 % 0x10 * 0x10 }
  function Src(code: nat): nat { code / 8 % 2 * 8 }

  /** The modes and operators that the validator's tables list. */
  predicate Listed(code: nat) {
    var c := Class(code);
    if c == LD || c == LDX then Mode(code) in {IMM, ABS, IND, MSH, MEM, LEN}
    else if c == ALU then OpBits(code) in {ADD, SUB, MUL, OR, AND, XOR, LSH, RSH, NEG, DIV, MOD}
    else if c == JMP then OpBits(code) in {JA, JEQ, JGT, JGE, JSET}
    else true
  }

  predicate TouchesScratch(code: nat) {
    Class(code) == ST || Class(code) == STX || ((Class(code) == LD || Class(code) == LDX) && Mode(code) == MEM)
  }

  predicate DividesByConstant(code: nat) {
    Class(code) == ALU && (OpBits(code) == DIV || OpBits(code) == MOD) && Src(code) == K
  }

  /** The places control can go from a branch at pc. */
  function Targets(i: Insn, pc: nat): set<int>
    requires i.code >= 0
  {
    if Class(i.code) != JMP then {}
    else if OpBits(i.code) == JA then {pc + 1 + Signed(i.k)}
    else {pc + 1 + i.jt, pc + 1 + i.jf}
  }

  predicate InsnOk(f: seq<Insn>, pc: nat)
    requires pc < |f|
  {
    var i := f[pc];
    && 0 <= i.code
    && Listed(i.code)
    && (TouchesScratch(i.code) ==> i.k < MEMWORDS)
    && (DividesByConstant(i.code) ==> i.k != 0)
    && (forall t :: t in Targets(i, pc) ==> 0 <= t < |f|)
  }

  predicate Valid(f: seq<Insn>) {
    && |f| > 0
    && (forall pc :: 0 <= pc < |f| ==> InsnOk(f, pc))
    && Class(f[|f| - 1].code) == RET
  }

  /** A program as the C types allow it: 16-bit codes, and a length that fits an int. */
  predicate Wellformed(f: seq<Insn>) {
    |f| < 0x8000_0000 && forall i :: 0 <= i < |f| ==> 0 <= f[i].code < 0x1_0000
  }

  /** The validator adds the 32-bit offset without its sign, and compares the wrapped sum.
      For a program whose length fits an int that is the range test for the signed jump. */
  lemma WrappedJump(from: nat, k: Word, len: nat)
    requires from <= len < 0x8000_0000
    ensures Wrap(from + k) < len <==> 0 <= from + Signed(k) < len
  {
    if k < 0x8000_0000 {
      assert Wrap(from + k) == from + k;
    } else {
      assert from + Signed(k) < len;
      if from + Signed(k) >= 0 {
        assert from + k == from + Signed(k) + WORD_SIZE;
      }
    }
  }

  method Validate(f: seq<Insn>) returns (ok: bool)
    requires Wellformed(f)
    ensures ok == Valid(f)
  {
    if |f| < 1 { return false; }
    var i := 0;
    while i < |f|
      invariant 0 <= i <= |f|
      invariant forall pc :: 0 <= pc < i ==> InsnOk(f, pc)
    {
      ok := CheckInsn(f, i);
      if !ok { return; }
      i := i + 1;
    }
    return Class(f[|f| - 1].code) == RET;
  }

  /** The body of the validator's loop. */
  method CheckInsn(f: seq<Insn>, i: nat) returns (ok: bool)
    requires Wellformed(f) && i < |f|
    ensures ok == InsnOk(f, i)
  {
    var code, k := f[i].code, f[i].k;
    if Class(code) == LD || Class(code) == LDX {
      if Mode(code) == MEM {
        return k < MEMWORDS;
      }
      return Mode(code) in {IMM, ABS, IND, MSH, LEN};
    } else if Class(code) == ST || Class(code) == STX {
      return k < MEMWORDS;
    } else if Class(code) == ALU {
      if OpBits(code) == DIV || OpBits(code) == MOD {
        return !(Src(code) == K && k == 0);
      }
      return OpBits(code) in {ADD, SUB, MUL, OR, AND, XOR, LSH, RSH, NEG};
    } else if Class(code) == JMP {
      var from := i + 1;
      if OpBits(code) == JA {
        WrappedJump(from, k, |f|);
        assert Targets(f[i], i) == {from + Signed(k)};
        return Wrap(from + k) < |f|;
      } else if OpBits(code) in {JEQ, JGT, JGE, JSET} {
        assert Targets(f[i], i) == {from + f[i].jt, from + f[i].jf};
        return from + f[i].jt < |f| && from + f[i].jf < |f|;
      }
      return false;
    }
    return true;
  }

  // ----- what acceptance means for the interpreter -----

  /** The interpreter's switch and the validator's masks agree on what an instruction is. */
  lemma DecodeMatchesMasks(code: nat)
    ensures Decode(code).LdMem? || Decode(code).LdxMem? || Decode(code).StA? || Decode(code).StX? ==>
      TouchesScratch(code)
    ensures IsPlain(Decode(code)) ==> Class(code) != RET
  {
  }

  lemma DecodeMatchesMasksAlu(code: nat)
    ensures Decode(code) == AluK(Div) || Decode(code) == AluK(Mod) ==> DividesByConstant(code)
  {
  }

  lemma DecodeMatchesMasksJmp(code: nat)
    ensures Decode(code).Ja? ==> Class(code) == JMP && OpBits(code) == JA
    ensures Decode(code).JmpK? || Decode(code).JmpX? ==> Class(code) == JMP && OpBits(code) != JA
  {
  }

  predicate Inside(f: seq<Insn>, c: Config) {
    !c.Faulted? && (c.At? ==> 0 <= c.pc < |f|)
  }

  /** One step of an accepted program stays inside it and does nothing undefined. */
  lemma StepStaysInside(f: seq<Insn>, p: Packet, pc: nat, r: Regs)
    requires Valid(f) && pc < |f|
    ensures Inside(f, Step(f, p, pc, r))
  {
    var i := f[pc];
    assert InsnOk(f, pc);
    DecodeMatchesMasks(i.code);
    DecodeMatchesMasksAlu(i.code);
    DecodeMatchesMasksJmp(i.code);
    if Decode(i.code).JmpK? || Decode(i.code).JmpX? {
      assert pc + 1 + i.jt in Targets(i, pc) && pc + 1 + i.jf in Targets(i, pc);
    } else if Decode(i.code).Ja? {
      assert pc + 1 + Signed(i.k) in Targets(i, pc);
    }
  }

  /** Every run of an accepted program, however long, on every packet, from every content of
      the scratch memory: the program counter stays in range and nothing undefined happens. */
  lemma {:induction false} AcceptedIsSafe(f: seq<Insn>, p: Packet, c: Config, n: nat)
    requires Valid(f) && Inside(f, c)
    ensures Inside(f, Steps(f, p, c, n))
    decreases n
  {
    if n > 0 && c.At? {
      StepStaysInside(f, p, c.pc, c.r);
      AcceptedIsSafe(f, p, Step(f, p, c.pc, c.r), n - 1);
    }
  }

  /** No unconditional jump goes backwards. */
  predicate Forward(f: seq<Insn>) {
    forall i :: 0 <= i < |f| && Decode(f[i].code).Ja? ==> f[i].k < 0x8000_0000
  }

  /** An accepted program without backward jumps halts within as many steps as it has
      instructions left. */
  lemma {:induction false} ForwardHalts(f: seq<Insn>, p: Packet, pc: nat, r: Regs, n: nat)
    requires Valid(f) && Forward(f) && pc < |f| && |f| - pc <= n
    ensures Steps(f, p, At(pc, r), n).Done? || Steps(f, p, At(pc, r), n).Aborted?
    decreases n
  {
    StepStaysInside(f, p, pc, r);
    var c := Step(f, p, pc, r);
    if c.At? {
      assert c.pc > pc;
      ForwardHalts(f, p, c.pc, c.r, n - 1);
    }
  }

  predicate Known(f: seq<Insn>) {
    forall i :: 0 <= i < |f| ==> !Decode(f[i].code).Bad?
  }

  /** abort() is reached only through a code outside the interpreter's switch. */
  lemma {:induction false} KnownNeverAborts(f: seq<Insn>, p: Packet, c: Config, n: nat)
    requires Known(f) && !c.Aborted?
    ensures !Steps(f, p, c, n).Aborted?
    decreases n
  {
    if n > 0 && c.At? {
      KnownNeverAborts(f, p, Step(f, p, c.pc, c.r), n - 1);
    }
  }

  predicate Survives(f: seq<Insn>, p: Packet, c: Config, n: nat) { !c.Aborted? ==> !Steps(f, p, c, n).Aborted? }

  /** Exactly the programs of known codes never abort, from whatever instruction they start. */
  lemma KnownIffNeverAborts(f: seq<Insn>, p: Packet, r: Regs)
    ensures Known(f) <==> forall c: Config, n: nat :: Survives(f, p, c, n)
  {
    if Known(f) {
      forall c: Config, n: nat ensures Survives(f, p, c, n) {
        if !c.Aborted? { KnownNeverAborts(f, p, c, n); }
      }
    } else {
      var i :| 0 <= i < |f| && Decode(f[i].code).Bad?;
      assert Steps(f, p, Step(f, p, i, r), 0) == Aborted;
      assert !Survives(f, p, At(i, r), 1);
    }
  }

  /** The main result: an accepted program of known codes without backward jumps returns a
      value on every packet, after at most |f| steps. */
  lemma AcceptedReturns(f: seq<Insn>, p: Packet, r: Regs)
    requires Valid(f) && Forward(f) && Known(f)
    ensures Steps(f, p, At(0, r), |f|).Done?
  {
    ForwardHalts(f, p, 0, r, |f|);
    KnownNeverAborts(f, p, At(0, r), |f|);
  }

  /** The validator's comment says that each jump is forward; its code does not check that,
      so a program it accepts can run for ever. */
  lemma {:induction false} AcceptedMayLoop(p: Packet, r: Regs, n: nat)
    ensures var f := [Insn(JMP + JA, 0, 0, 0xffff_ffff), Insn(RET + K, 0, 0, 0)];
            Valid(f) && Known(f) && Steps(f, p, At(0, r), n) == At(0, r)
  {
    var f := [Insn(JMP + JA, 0, 0, 0xffff_ffff), Insn(RET + K, 0, 0, 0)];
    assert InsnOk(f, 0) && InsnOk(f, 1);
    if n > 0 {
      AcceptedMayLoop(p, r, n - 1);
    }
  }

  /** Nor does it check that a code is one of the interpreter's: RET with operand X is
      accepted, and running it calls abort(). */
  lemma AcceptedMayAbort(p: Packet, r: Regs)
    ensures var f := [Insn(RET + X, 0, 0, 0)];
            Valid(f) && Forward(f) && Steps(f, p, At(0, r), 1) == Aborted
  {
    var f := [Insn(RET + X, 0, 0, 0)];
    assert InsnOk(f, 0);
    assert Steps(f, p, Step(f, p, 0, r), 0) == Aborted;
  }
}
