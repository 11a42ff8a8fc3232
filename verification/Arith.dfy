/**
 Code generation for arithmetic expressions and relations between them: gen_loadi,
 gen_loadlen, gen_load, gen_neg, gen_arth, gen_relation and the scratch-register allocator
 of deps/libpcap/gencode.c.  Packet loads are relative to link, network and transport headers
 behind a link header of fixed length.
 */
module Arith {
  import opened Basics
  import opened Machine
  import opened Flow
  import opened BoolExpr
  import opened Backpatch
  import opened FilterGraph
  import opened Headers

  datatype Expr =
    | Imm(v: Word)
    | PacketLen
    | Load(index: Expr, size: LoadSize, header: Header)
    | Neg(arg: Expr)
    | Bin(op: AluOp, left: Expr, right: Expr)

  // ----- what an expression means -----

  datatype Value = Val(w: Word) | NoValue

  /** The 32-bit value of an expression, if every load is inside the captured data and no
      divisor is zero. */
  function Meaning(e: Expr, p: Packet): Value {
    match e
    case Imm(v) => Val(v)
    case PacketLen => Val(p.wirelen)
    case Load(i, size, h) =>
      var v := Meaning(i, p);
      if v.Val? then Loaded(size, Position(h, v.w, p), p) else NoValue
    case Neg(a) =>
      var v := Meaning(a, p);
      if v.Val? then Val(Wrap(WORD_SIZE - v.w)) else NoValue
    case Bin(op, l, r) =>
      var v, w := Meaning(l, p), Meaning(r, p);
      if !v.Val? || !w.Val? || ((op.Div? || op.Mod?) && w.w == 0) then NoValue else Val(Compute(op, v.w, w.w))
  }

  function Loaded(size: LoadSize, at: Option<nat>, p: Packet): Value {
    if at.Some? && at.value + SizeOf(size) <= |p.data| then Val(Extract(p, at.value, size)) else NoValue
  }

  // ----- when an expression can be compiled -----

  /** Registers that must be free. */
  function Need(e: Expr): nat {
    match e
    case Imm(_) => 1
    case PacketLen => 1
    case Load(i, _, _) => if Need(i) < 2 then 2 else Need(i)
    case Neg(a) => Need(a)
    case Bin(_, l, r) => if Need(l) > 1 + Need(r) then Need(l) else 1 + Need(r)
  }

  /** Statements that its code takes. */
  function StmtCount(e: Expr): (n: nat)
    ensures n > 0
  {
    match e
    case Imm(_) => 2
    case PacketLen => 2
    case Load(i, _, h) => StmtCount(i) + if h.Transport? then 6 else 3
    case Neg(a) => StmtCount(a) + 3
    case Bin(_, l, r) => StmtCount(l) + StmtCount(r) + 4
  }

  /** The operand that is evaluated first. */
  function Leftmost(e: Expr): Expr {
    match e
    case Imm(_) => e
    case PacketLen => e
    case Load(i, _, _) => Leftmost(i)
    case Neg(a) => Leftmost(a)
    case Bin(_, l, _) => Leftmost(l)
  }

  /** The generator looks only at the first statement of a divisor, so it refuses every
      divisor whose first operand is the constant 0. */
  predicate RefusedDivisor(e: Expr) {
    match e
    case Imm(_) => false
    case PacketLen => false
    case Load(i, _, _) => RefusedDivisor(i)
    case Neg(a) => RefusedDivisor(a)
    case Bin(op, l, r) => RefusedDivisor(l) || RefusedDivisor(r) || ((op.Div? || op.Mod?) && Leftmost(r) == Imm(0))
  }

  /** A constant divisor is refused exactly when it is 0; that is all the check was meant for. */
  lemma ConstantDivisor(op: AluOp, e: Expr, v: Word)
    requires (op.Div? || op.Mod?) && !RefusedDivisor(e)
    ensures RefusedDivisor(Bin(op, e, Imm(v))) <==> v == 0
  {
  }

  /** x / (0 + 1) is refused although its divisor is 1 for every packet. */
  lemma OneIsRefused(p: Packet)
    ensures var divisor := Bin(Add, Imm(0), Imm(1));
      Meaning(divisor, p) == Val(1) && RefusedDivisor(Bin(Div, PacketLen, divisor))
  {
  }

  /** x / (1 - 1) is compiled although it has no value for any packet. */
  lemma ZeroIsCompiled(p: Packet)
    ensures var divisor := Bin(Sub, Imm(1), Imm(1));
      && Meaning(divisor, p) == Val(0) && Meaning(Bin(Div, PacketLen, divisor), p) == NoValue
      && !RefusedDivisor(Bin(Div, PacketLen, divisor)) && Need(Bin(Div, PacketLen, divisor)) <= MEMWORDS
  {
  }

  function Free(used: seq<bool>): nat {
    if used == [] then 0 else (if used[0] then 0 else 1) + Free(used[1..])
  }

  lemma {:induction false} FreeUpdate(used: seq<bool>, i: nat)
    requires i < |used| && !used[i]
    ensures Free(used) == Free(used[i := true]) + 1
  {
    if i == 0 {
      assert used[0 := true][1..] == used[1..];
    } else {
      assert used[i := true][1..] == used[1..][i - 1 := true];
      FreeUpdate(used[1..], i - 1);
    }
  }

  lemma {:induction false} FreeIffSome(used: seq<bool>)
    ensures Free(used) > 0 <==> exists i :: 0 <= i < |used| && !used[i]
  {
    if used != [] {
      FreeIffSome(used[1..]);
      if exists i :: 0 <= i < |used| && !used[i] {
        var i :| 0 <= i < |used| && !used[i];
        if i > 0 { assert !used[1..][i - 1]; }
      }
      if Free(used) > 0 && used[0] {
        var j :| 0 <= j < |used[1..]| && !used[1..][j];
        assert !used[j + 1];
      }
    }
  }

  // ----- the protocol checks -----

  /** The checks that the code of an expression performs.  Those of the right operand of a binary
      operation are lost: gen_arth keeps the left operand's only. */
  function Checks(e: Expr): Option<Tree<Field>> {
    match e
    case Imm(_) => None
    case PacketLen => None
    case Load(i, _, h) => Guarded(h, Checks(i))
    case Neg(a) => Checks(a)
    case Bin(_, l, _) => Checks(l)
  }

  // ----- what generated statements promise -----

  /** Statements s leave the value of e in register reg, or reject if it has none, and keep
      every register in use. */
  ghost predicate ComputesAt(s: seq<Stmt>, e: Expr, reg: nat, used: seq<bool>, p: Packet, r: Regs)
    requires StmtsOk(s) && |used| == MEMWORDS && reg < MEMWORDS
  {
    var v, eff := Meaning(e, p), RunStmts(s, p, r);
    if v.Val? then
      eff.Next? && eff.r.mem[reg] == v.w && forall i :: 0 <= i < MEMWORDS && used[i] ==> eff.r.mem[i] == r.mem[i]
    else eff.Reject?
  }

  ghost predicate Computes(s: seq<Stmt>, e: Expr, reg: nat, used: seq<bool>)
    requires StmtsOk(s) && |used| == MEMWORDS && reg < MEMWORDS
  {
    forall p: Packet, r: Regs :: ComputesAt(s, e, reg, used, p, r)
  }

  /** Compiled code: struct arth, with its protocol checks. */
  datatype Arth = Arth(s: seq<Stmt>, b: Option<Tree<TestCode>>, regno: nat)

  ghost predicate Compiled(a: Arth, e: Expr, used: seq<bool>) {
    && |used| == MEMWORDS && a.regno < MEMWORDS && !used[a.regno]
    && StmtsOk(a.s) && Computes(a.s, e, a.regno, used)
    && |a.s| == StmtCount(e) && a.b == CodeOf(Checks(e))
    && (a.s[0] == Stmt(LD + IMM, 0) <==> Leftmost(e) == Imm(0))
  }

  function LoadCode(size: LoadSize): int { LD + IND + SizeCode(size) }

  function AluCode(op: AluOp): int {
    ALU + X + match op
      case Add => ADD case Sub => SUB case Mul => MUL case Div => DIV case Mod => MOD
      case And => AND case Or => OR case Xor => XOR case Lsh => LSH case Rsh => RSH
  }

  lemma AluDecodes(op: AluOp)
    ensures Decode(AluCode(op)) == AluX(op)
  {
    hide Decode;
    assert AluCode(op) % 8 == ALU;
    AluClass(AluCode(op));
  }

  lemma LoadDecodes(size: LoadSize)
    ensures Decode(LoadCode(size)) == LdInd(size)
  {
  }

  // ----- statement lists the generator emits -----

  function ToX(reg: Word): Stmt { Stmt(LDX + MEM, reg) }
  function ToA(reg: Word): Stmt { Stmt(LD + MEM, reg) }
  function Save(reg: Word): Stmt { Stmt(ST, reg) }

  lemma RunLeaf(first: Stmt, v: Word, reg: Word, p: Packet, r: Regs)
    requires reg < MEMWORDS && StmtOk(first) && RunStmt(first, p, r) == Next(r.(a := v))
    ensures StmtsOk([first, Save(reg)])
    ensures RunStmts([first, Save(reg)], p, r) == Next(r.(a := v, mem := r.mem[reg := v]))
  {
    RunCons(first, [Save(reg)], p, r);
    RunCons(Save(reg), [], p, r.(a := v));
  }

  lemma RunToXA(left: Word, right: Word, p: Packet, r: Regs)
    requires left < MEMWORDS && right < MEMWORDS
    ensures StmtsOk([ToX(right), ToA(left)])
    ensures RunStmts([ToX(right), ToA(left)], p, r) == Next(r.(a := r.mem[left], x := r.mem[right]))
  {
    RunCons(ToX(right), [ToA(left)], p, r);
    RunCons(ToA(left), [], p, r.(x := r.mem[right]));
  }

  /** gen_neg: load, negate, store back. */
  function NegTail(reg: Word): seq<Stmt> { [ToA(reg), Stmt(ALU + NEG, 0), Save(reg)] }

  lemma RunNegTail(reg: Word, p: Packet, r: Regs)
    requires reg < MEMWORDS
    ensures StmtsOk(NegTail(reg))
    ensures var v := Wrap(WORD_SIZE - r.mem[reg]);
            RunStmts(NegTail(reg), p, r) == Next(r.(a := v, mem := r.mem[reg := v]))
  {
    var r1 := r.(a := r.mem[reg]);
    RunCons(ToA(reg), [Stmt(ALU + NEG, 0), Save(reg)], p, r);
    RunLeaf(Stmt(ALU + NEG, 0), Wrap(WORD_SIZE - r.mem[reg]), reg, p, r1);
  }

  /** The offset to X: the index, for a transport header plus the length of the IP header. */
  function IndexToX(index: Word, h: Header): (s: seq<Stmt>)
    ensures |s| == if h.Transport? then 4 else 1
  {
    if h.Transport? then [Stmt(LDX + MSH + B, h.offset), ToA(index), Stmt(AluCode(Add), 0), Stmt(MISC + TAX, 0)]
    else [ToX(index)]
  }

  /** gen_load: offset to X, load, store into the new register. */
  function LoadTail(index: Word, size: LoadSize, h: Header, reg: Word): (s: seq<Stmt>)
    ensures |s| == if h.Transport? then 6 else 3
  {
    IndexToX(index, h) + [Stmt(LoadCode(size), h.offset), Save(reg)]
  }

  lemma IndexToXOk(index: Word, h: Header)
    requires index < MEMWORDS
    ensures StmtsOk(IndexToX(index, h))
  {
    if h.Transport? {
      HeaderLengthDecodes();
      hide Decode;
    }
  }

  lemma HeaderLengthDecodes()
    ensures Decode(LDX + MSH + B) == LdxMsh && Decode(MISC + TAX) == AtoX && Decode(AluCode(Add)) == AluX(Add)
    ensures Decode(LD + MEM) == LdMem
  {
    AluDecodes(Add);
  }

  lemma RunIndexToX(index: Word, h: Header, p: Packet, r: Regs)
    requires index < MEMWORDS
    ensures StmtsOk(IndexToX(index, h))
    ensures var at, eff := Position(h, r.mem[index], p), RunStmts(IndexToX(index, h), p, r);
      if at.Some? then eff.Next? && eff.r.mem == r.mem && eff.r.x + h.offset == at.value else eff.Reject?
  {
    IndexToXOk(index, h);
    if h.Transport? {
      RunHeaderLength(index, h.offset, p, r);
    } else {
      RunCons(ToX(index), [], p, r);
    }
  }

  lemma RunHeaderLength(index: Word, offset: Word, p: Packet, r: Regs)
    requires index < MEMWORDS
    ensures var msh, add, tax := Stmt(LDX + MSH + B, offset), Stmt(AluCode(Add), 0), Stmt(MISC + TAX, 0);
      && StmtsOk([msh, ToA(index), add, tax])
      && var eff := RunStmts([msh, ToA(index), add, tax], p, r);
         if offset < |p.data| then
           eff.Next? && eff.r.mem == r.mem && eff.r.x == Wrap(r.mem[index] + p.data[offset] % 16 * 4)
         else eff.Reject?
  {
    hide RunStmts, RunStmt, StmtOk, Safe, AluCode, ToA;
    var msh, add, tax := Stmt(LDX + MSH + B, offset), Stmt(AluCode(Add), 0), Stmt(MISC + TAX, 0);
    HeaderLengthSteps(index, offset, p, r);
    RunCons(msh, [ToA(index), add, tax], p, r);
    assert [msh, ToA(index), add, tax] == [msh] + [ToA(index), add, tax];
    if offset < |p.data| {
      var r1 := r.(x := p.data[offset] % 16 * 4);
      var r2 := r1.(a := r.mem[index]);
      HeaderLengthSteps(index, offset, p, r1);
      HeaderLengthSteps(index, offset, p, r2);
      HeaderLengthSteps(index, offset, p, r2.(a := Wrap(r2.a + r2.x)));
      RunCons(ToA(index), [add, tax], p, r1);
      assert [ToA(index), add, tax] == [ToA(index)] + [add, tax];
      RunCons(add, [tax], p, r2);
      assert [add, tax] == [add] + [tax];
      RunOne(tax, p, r2.(a := Wrap(r2.a + r2.x)));
    }
  }

  lemma RunOne(s: Stmt, p: Packet, r: Regs)
    requires StmtOk(s)
    ensures RunStmts([s], p, r) == RunStmt(s, p, r)
  {
    hide StmtOk, RunStmt;
    RunCons(s, [], p, r);
    assert [s] + [] == [s];
  }

  /** The four statements one by one. */
  lemma HeaderLengthSteps(index: Word, offset: Word, p: Packet, r: Regs)
    requires index < MEMWORDS
    ensures var msh, add, tax := Stmt(LDX + MSH + B, offset), Stmt(AluCode(Add), 0), Stmt(MISC + TAX, 0);
      && StmtsOk([msh, ToA(index), add, tax]) && StmtsOk([ToA(index), add, tax]) && StmtsOk([add, tax])
      && StmtsOk([tax])
      && StmtOk(msh) && StmtOk(ToA(index)) && StmtOk(add) && StmtOk(tax)
      && RunStmt(msh, p, r) == (if offset < |p.data| then Next(r.(x := p.data[offset] % 16 * 4)) else Reject)
      && RunStmt(ToA(index), p, r) == Next(r.(a := r.mem[index]))
      && RunStmt(add, p, r) == Next(r.(a := Wrap(r.a + r.x)))
      && RunStmt(tax, p, r) == Next(r.(x := r.a))
  {
    HeaderLengthDecodes();
    hide Decode;
  }

  lemma LoadTailOk(index: Word, size: LoadSize, h: Header, reg: Word)
    requires index < MEMWORDS && reg < MEMWORDS
    ensures StmtsOk(LoadTail(index, size, h, reg))
  {
    IndexToXOk(index, h);
    LoadDecodes(size);
  }

  lemma RunLoadTail(index: Word, size: LoadSize, h: Header, reg: Word, p: Packet, r: Regs)
    requires index < MEMWORDS && reg < MEMWORDS
    ensures StmtsOk(LoadTail(index, size, h, reg))
    ensures var v, eff := Loaded(size, Position(h, r.mem[index], p), p), RunStmts(LoadTail(index, size, h, reg), p, r);
            if v.Val? then eff.Next? && eff.r.mem == r.mem[reg := v.w] else eff.Reject?
  {
    LoadTailOk(index, size, h, reg);
    RunIndexToX(index, h, p, r);
    var ld := Stmt(LoadCode(size), h.offset);
    SaveOk(ld, size, reg);
    hide StmtOk, Safe, RunStmt, RunStmts, IndexToX, Position, LoadCode;
    RunStmtsAppend(IndexToX(index, h), [ld, Save(reg)], p, r);
    var eff := RunStmts(IndexToX(index, h), p, r);
    if eff.Next? { RunLoadAndSave(size, h.offset, reg, p, eff.r); }
  }

  lemma SaveOk(ld: Stmt, size: LoadSize, reg: Word)
    requires ld.code == LoadCode(size) && reg < MEMWORDS
    ensures StmtsOk([ld, Save(reg)])
  {
    LoadDecodes(size);
  }

  lemma RunLoadAndSave(size: LoadSize, k: Word, reg: Word, p: Packet, r: Regs)
    requires reg < MEMWORDS
    ensures var ld := Stmt(LoadCode(size), k);
      && StmtsOk([ld, Save(reg)])
      && var v, eff := Loaded(size, Some(r.x + k), p), RunStmts([ld, Save(reg)], p, r);
         if v.Val? then eff.Next? && eff.r.mem == r.mem[reg := v.w] else eff.Reject?
  {
    LoadDecodes(size);
    var ld := Stmt(LoadCode(size), k);
    SaveOk(ld, size, reg);
    RunCons(ld, [Save(reg)], p, r);
    assert [ld, Save(reg)] == [ld] + [Save(reg)];
    var e := RunStmt(ld, p, r);
    if e.Next? { RunLeaf(ld, e.r.a, reg, p, r); }
  }

  /** gen_arth: right operand to X, left to A, operate, store into the new register. */
  function BinTail(op: AluOp, left: Word, right: Word, reg: Word): (t: seq<Stmt>)
    ensures |t| == 4
  {
    [ToX(right), ToA(left), Stmt(AluCode(op), 0), Save(reg)]
  }

  lemma BinTailOk(op: AluOp, left: Word, right: Word, reg: Word)
    requires left < MEMWORDS && right < MEMWORDS && reg < MEMWORDS
    ensures StmtsOk(BinTail(op, left, right, reg))
  {
    AluDecodes(op);
  }

  lemma RunAlu(op: AluOp, p: Packet, r: Regs)
    ensures var alu := Stmt(AluCode(op), 0);
            StmtOk(alu) && RunStmt(alu, p, r) ==
              if (op.Div? || op.Mod?) && r.x == 0 then Reject else Next(r.(a := Compute(op, r.a, r.x)))
  {
    AluDecodes(op);
    hide Compute;
  }

  lemma RunBinTail(op: AluOp, left: Word, right: Word, reg: Word, p: Packet, r: Regs)
    requires left < MEMWORDS && right < MEMWORDS && reg < MEMWORDS
    ensures StmtsOk(BinTail(op, left, right, reg))
    ensures var v, w := r.mem[left], r.mem[right];
            var eff := RunStmts(BinTail(op, left, right, reg), p, r);
            if (op.Div? || op.Mod?) && w == 0 then eff == Reject
            else eff.Next? && eff.r.mem == r.mem[reg := Compute(op, v, w)]
  {
    var alu := Stmt(AluCode(op), 0);
    var r2 := r.(a := r.mem[left], x := r.mem[right]);
    BinTailOk(op, left, right, reg);
    RunToXA(left, right, p, r);
    RunAlu(op, p, r2);
    hide Compute, RunStmts, RunStmt, StmtOk, Safe, AluCode;
    assert BinTail(op, left, right, reg) == [ToX(right), ToA(left)] + [alu, Save(reg)];
    assert [alu, Save(reg)] == [alu] + [Save(reg)];
    RunStmtsAppend([ToX(right), ToA(left)], [alu, Save(reg)], p, r);
    RunCons(alu, [Save(reg)], p, r2);
    var e := RunStmt(alu, p, r2);
    if e.Next? {
      RunLeaf(alu, e.r.a, reg, p, r2);
    }
  }

  // ----- compiled code computes its expression -----

  lemma LeafCompiled(e: Expr, first: Stmt, reg: nat, used: seq<bool>)
    requires |used| == MEMWORDS && reg < MEMWORDS && !used[reg]
    requires (exists v :: e == Imm(v) && first == Stmt(LD + IMM, v)) || (e == PacketLen && first == Stmt(LD + LEN, 0))
    ensures Compiled(Arth([first, Save(reg)], None, reg), e, used)
  {
    forall p: Packet, r: Regs
      ensures StmtsOk([first, Save(reg)]) && ComputesAt([first, Save(reg)], e, reg, used, p, r)
    {
      RunLeaf(first, Meaning(e, p).w, reg, p, r);
    }
  }

  lemma TailRuns(a: Arth, e: Expr, used: seq<bool>, tail: seq<Stmt>, p: Packet, r: Regs)
    requires Compiled(a, e, used) && StmtsOk(tail)
    ensures StmtsOk(a.s + tail)
    ensures ComputesAt(a.s, e, a.regno, used, p, r)
    ensures RunStmts(a.s + tail, p, r)
      == var eff := RunStmts(a.s, p, r); if eff.Next? then RunStmts(tail, p, eff.r) else eff
  {
    RunStmtsAppend(a.s, tail, p, r);
  }

  lemma NegCompiledAt(a: Arth, e: Expr, used: seq<bool>, p: Packet, r: Regs)
    requires Compiled(a, e, used)
    ensures var s := a.s + NegTail(a.regno); StmtsOk(s) && ComputesAt(s, Neg(e), a.regno, used, p, r)
  {
    hide RunStmts, StmtOk, Safe, Leftmost, Computes, NegTail;
    RunNegTail(a.regno, p, r);
    TailRuns(a, e, used, NegTail(a.regno), p, r);
    var eff := RunStmts(a.s, p, r);
    if eff.Next? { RunNegTail(a.regno, p, eff.r); }
  }

  lemma NegCompiled(a: Arth, e: Expr, used: seq<bool>)
    requires Compiled(a, e, used)
    ensures Compiled(a.(s := a.s + NegTail(a.regno)), Neg(e), used)
  {
    var s := a.s + NegTail(a.regno);
    hide RunStmts, ComputesAt;
    forall p: Packet, r: Regs
      ensures StmtsOk(s) && ComputesAt(s, Neg(e), a.regno, used, p, r)
    {
      NegCompiledAt(a, e, used, p, r);
    }
  }

  lemma LoadCompiledAt(a: Arth, e: Expr, size: LoadSize, h: Header, used: seq<bool>, reg: nat, p: Packet, r: Regs)
    requires Compiled(a, e, used) && reg < MEMWORDS && !used[reg]
    ensures var s := a.s + LoadTail(a.regno, size, h, reg);
      StmtsOk(s) && ComputesAt(s, Load(e, size, h), reg, used, p, r)
  {
    hide RunStmts, StmtOk, Safe, Leftmost, Computes, LoadTail, Loaded, Position, Checks, CodeOf;
    RunLoadTail(a.regno, size, h, reg, p, r);
    TailRuns(a, e, used, LoadTail(a.regno, size, h, reg), p, r);
    var eff := RunStmts(a.s, p, r);
    if eff.Next? { RunLoadTail(a.regno, size, h, reg, p, eff.r); }
  }

  /** What gen_load makes of the index's checks. */
  function LoadChecks(b: Option<Tree<TestCode>>, h: Header): Option<Tree<TestCode>> {
    match h
    case Link(_) => b
    case Network(_, check) => Both(b, Some(CheckCode(check)))
    case Transport(offset, ip, proto) =>
      var first := Op(false, CheckCode(proto), CheckCode(FirstFragment(offset)));
      Both(Some(CheckCode(ip)), Both(b, Some(first)))
  }

  lemma LoadChecksCoded(inner: Option<Tree<Field>>, h: Header)
    ensures LoadChecks(CodeOf(inner), h) == CodeOf(Guarded(h, inner))
  {
    hide FirstFragment;
    match h
    case Link(_) =>
    case Network(_, check) =>
      BothCoded(inner, Some(check));
    case Transport(offset, ip, proto) =>
      var first := Op(false, proto, FirstFragment(offset));
      assert CheckCode(first) == Op(false, CheckCode(proto), CheckCode(FirstFragment(offset)));
      BothCoded(inner, Some(first));
      BothCoded(Some(ip), Both(inner, Some(first)));
  }

  lemma LoadCompiled(a: Arth, e: Expr, size: LoadSize, h: Header, used: seq<bool>, reg: nat)
    requires Compiled(a, e, used) && reg < MEMWORDS && !used[reg]
    ensures Compiled(Arth(a.s + LoadTail(a.regno, size, h, reg), LoadChecks(a.b, h), reg), Load(e, size, h), used)
  {
    var s := a.s + LoadTail(a.regno, size, h, reg);
    LoadTailOk(a.regno, size, h, reg);
    LoadChecksCoded(Checks(e), h);
    hide RunStmts, ComputesAt, LoadTail, StmtOk, Safe, CheckCode, LoadChecks, Guarded, CodeOf;
    forall p: Packet, r: Regs
      ensures StmtsOk(s) && ComputesAt(s, Load(e, size, h), reg, used, p, r)
    {
      LoadCompiledAt(a, e, size, h, used, reg, p, r);
    }
  }

  /** Both operands in their registers: the code of the right operand keeps the left one's. */
  lemma OperandsRun(a0: Arth, e0: Expr, a1: Arth, e1: Expr, used: seq<bool>, tail: seq<Stmt>, p: Packet,
      r: Regs)
    returns (r': Regs)
    requires Compiled(a0, e0, used) && Compiled(a1, e1, used[a0.regno := true]) && StmtsOk(tail)
    ensures StmtsOk(a0.s + (a1.s + tail))
    ensures var v, w := Meaning(e0, p), Meaning(e1, p);
            var eff := RunStmts(a0.s + (a1.s + tail), p, r);
            if v.Val? && w.Val? then
              && r'.mem[a0.regno] == v.w && r'.mem[a1.regno] == w.w
              && (forall i :: 0 <= i < MEMWORDS && used[i] ==> r'.mem[i] == r.mem[i])
              && eff == RunStmts(tail, p, r')
            else eff.Reject?
  {
    hide RunStmts, StmtOk, Meaning, Leftmost;
    var used1 := used[a0.regno := true];
    r' := r;
    TailRuns(a0, e0, used, a1.s + tail, p, r);
    var eff0 := RunStmts(a0.s, p, r);
    if eff0.Next? {
      TailRuns(a1, e1, used1, tail, p, eff0.r);
      var eff1 := RunStmts(a1.s, p, eff0.r);
      if eff1.Next? {
        assert used1[a0.regno];
        r' := eff1.r;
      }
    }
  }

  lemma BinCompiledAt(op: AluOp, a0: Arth, e0: Expr, a1: Arth, e1: Expr, used: seq<bool>, reg: nat,
      p: Packet, r: Regs)
    requires Compiled(a0, e0, used) && Compiled(a1, e1, used[a0.regno := true])
    requires reg < MEMWORDS && !used[reg]
    ensures var s := a0.s + (a1.s + BinTail(op, a0.regno, a1.regno, reg));
            StmtsOk(s) && ComputesAt(s, Bin(op, e0, e1), reg, used, p, r)
  {
    hide RunStmts, StmtOk, Leftmost, Compute, Computes, BinTail;
    RunBinTail(op, a0.regno, a1.regno, reg, p, r);
    var r' := OperandsRun(a0, e0, a1, e1, used, BinTail(op, a0.regno, a1.regno, reg), p, r);
    RunBinTail(op, a0.regno, a1.regno, reg, p, r');
  }

  lemma BinCompiled(op: AluOp, a0: Arth, e0: Expr, a1: Arth, e1: Expr, used: seq<bool>, reg: nat)
    requires Compiled(a0, e0, used) && Compiled(a1, e1, used[a0.regno := true])
    requires reg < MEMWORDS && !used[reg]
    ensures Compiled(Arth(a0.s + (a1.s + BinTail(op, a0.regno, a1.regno, reg)), a0.b, reg), Bin(op, e0, e1), used)
  {
    hide RunStmts, StmtOk, BinTail, ComputesAt;
    var s := a0.s + (a1.s + BinTail(op, a0.regno, a1.regno, reg));
    BinTailOk(op, a0.regno, a1.regno, reg);
    forall p: Packet, r: Regs
      ensures StmtsOk(s) && ComputesAt(s, Bin(op, e0, e1), reg, used, p, r)
    {
      BinCompiledAt(op, a0, e0, a1, e1, used, reg, p, r);
    }
  }

  lemma CompiledRegister(a: Arth, e: Expr, used: seq<bool>)
    requires Compiled(a, e, used)
    ensures |used| == MEMWORDS && a.regno < MEMWORDS && !used[a.regno]
  {
  }

  // ----- relations -----

  /** gen_relation: right operand to X, left to A; equality is tested by subtracting. */
  function RelTail(cmp: Cmp, left: Word, right: Word): seq<Stmt> {
    [ToX(right), ToA(left)] + if cmp.Eq? then [Stmt(ALU + SUB + X, 0)] else []
  }

  function RelBranch(cmp: Cmp): Stmt {
    match cmp
    case Eq => Stmt(JMP + JEQ + K, 0)
    case Gt => Stmt(JMP + JGT + X, 0)
    case Ge => Stmt(JMP + JGE + X, 0)
    case Set => Stmt(JMP + JSET + X, 0)
  }

  function RelTest(cmp: Cmp, a0: Arth, a1: Arth): TestCode
    requires a0.regno < MEMWORDS && a1.regno < MEMWORDS
  {
    TestCode(a0.s + (a1.s + RelTail(cmp, a0.regno, a1.regno)), RelBranch(cmp))
  }

  lemma RunSub(p: Packet, r: Regs)
    ensures var sub := Stmt(ALU + SUB + X, 0);
            StmtsOk([sub]) && RunStmts([sub], p, r) == Next(r.(a := Compute(Sub, r.a, r.x)))
  {
    RunCons(Stmt(ALU + SUB + X, 0), [], p, r);
  }

  lemma EqualIffDifferenceZero(v: Word, w: Word)
    ensures Compute(Sub, v, w) == 0 <==> v == w
  {
  }

  lemma RelBranchTaken(cmp: Cmp, r: Regs)
    ensures IsBranch(RelBranch(cmp))
    ensures Taken(RelBranch(cmp), r) == Test(cmp, r.a, if cmp.Eq? then 0 else r.x)
  {
  }

  lemma RunRelTail(cmp: Cmp, left: Word, right: Word, p: Packet, r: Regs)
    requires left < MEMWORDS && right < MEMWORDS
    ensures StmtsOk(RelTail(cmp, left, right)) && IsBranch(RelBranch(cmp))
    ensures var eff := RunStmts(RelTail(cmp, left, right), p, r);
            eff.Next? && (Taken(RelBranch(cmp), eff.r) <==> Test(cmp, r.mem[left], r.mem[right]))
  {
    hide Compute, RunStmts, StmtOk, Taken, IsBranch, RelBranch;
    var r' := r.(a := r.mem[left], x := r.mem[right]);
    RunToXA(left, right, p, r);
    RelBranchTaken(cmp, r');
    if cmp.Eq? {
      var sub := Stmt(ALU + SUB + X, 0);
      RunSub(p, r');
      RunStmtsAppend([ToX(right), ToA(left)], [sub], p, r);
      EqualIffDifferenceZero(r.mem[left], r.mem[right]);
      RelBranchTaken(cmp, r'.(a := Compute(Sub, r'.a, r'.x)));
    } else {
      assert [ToX(right), ToA(left)] + [] == [ToX(right), ToA(left)];
    }
  }

  /** The branch of a relation goes the way the comparison of the two values goes. */
  lemma RelationTested(cmp: Cmp, a0: Arth, e0: Expr, a1: Arth, e1: Expr, used: seq<bool>, p: Packet,
      r: Regs)
    requires Compiled(a0, e0, used) && Compiled(a1, e1, used[a0.regno := true])
    ensures TestOk(RelTest(cmp, a0, a1))
    ensures var v, w := Meaning(e0, p), Meaning(e1, p);
            var o := EvalTest(RelTest(cmp, a0, a1), p, r);
            if v.Val? && w.Val? then o.Answer? && o.yes == Test(cmp, v.w, w.w) else o.Rejects?
  {
    hide RunStmts, StmtOk, RelTail, RelBranch, Test, Meaning;
    RunRelTail(cmp, a0.regno, a1.regno, p, r);
    var r' := OperandsRun(a0, e0, a1, e1, used, RelTail(cmp, a0.regno, a1.regno), p, r);
    RunRelTail(cmp, a0.regno, a1.regno, p, r');
  }

  /** The k-th register from `start` on, around the circle. */
  function Around(start: nat, k: nat): (i: nat)
    ensures i < MEMWORDS
  {
    (start + k) % MEMWORDS
  }

  ghost predicate UsedFrom(regused: seq<bool>, start: nat, n: nat)
    requires |regused| == MEMWORDS
  {
    forall k :: 0 <= k < n ==> regused[Around(start, k)]
  }

  lemma AroundStep(start: nat, k: nat)
    requires start < MEMWORDS
    ensures Around(start, 0) == start && (Around(start, k) + 1) % MEMWORDS == Around(start, k + 1)
  {
  }

  /** Once around the circle, every register has been seen. */
  lemma AroundAll(regused: seq<bool>, start: nat)
    requires |regused| == MEMWORDS && start < MEMWORDS && UsedFrom(regused, start, MEMWORDS)
    ensures forall i :: 0 <= i < MEMWORDS ==> regused[i]
  {
    forall i | 0 <= i < MEMWORDS ensures regused[i] {
      var k := if i >= start then i - start else i + MEMWORDS - start;
      assert Around(start, k) == i;
    }
  }

  // ----- the generator -----

  class ArithGen {
    var regused: seq<bool>
    var curreg: nat

    ghost predicate Valid()
      reads this
    {
      |regused| == MEMWORDS && curreg < MEMWORDS
    }

    constructor ()
      ensures Valid() && Free(regused) == MEMWORDS
      ensures forall i :: 0 <= i < MEMWORDS ==> !regused[i]
    {
      regused := seq(MEMWORDS, _ => false);
      curreg := 0;
      new;
      NoneUsed(regused);
    }

    /** The next free register, searched for in a circle from the current one. */
    method AllocReg() returns (ok: bool, reg: nat)
      requires Valid()
      modifies this
      ensures Valid()
      ensures ok <==> Free(old(regused)) > 0
      ensures reg < MEMWORDS
      ensures ok ==> !old(regused)[reg] && regused == old(regused)[reg := true]
      ensures !ok ==> regused == old(regused)
    {
      hide Around;
      var n := MEMWORDS;
      ghost var start := curreg;
      reg := 0;
      FreeIffSome(regused);
      AroundStep(start, 0);
      while n > 0
        invariant 0 <= n <= MEMWORDS && Valid() && regused == old(regused)
        invariant curreg == Around(start, MEMWORDS - n) && UsedFrom(regused, start, MEMWORDS - n)
      {
        n := n - 1;
        if regused[curreg] {
          AroundStep(start, MEMWORDS - 1 - n);
          curreg := (curreg + 1) % MEMWORDS;
        } else {
          regused := regused[curreg := true];
          return true, curreg;
        }
      }
      AroundAll(regused, start);
      ok := false;
    }

    method FreeReg(n: nat)
      requires Valid() && n < MEMWORDS
      modifies this
      ensures Valid() && regused == old(regused)[n := false]
    {
      regused := regused[n := false];
    }

    method GenLoadI(v: Word) returns (ok: bool, a: Arth)
      requires Valid()
      modifies this
      ensures Valid()
      ensures ok <==> Free(old(regused)) > 0
      ensures ok ==> Compiled(a, Imm(v), old(regused)) && regused == old(regused)[a.regno := true]
    {
      var reg;
      ok, reg := AllocReg();
      a := Arth([Stmt(LD + IMM, v), Save(reg)], None, reg);
      if ok { LeafCompiled(Imm(v), Stmt(LD + IMM, v), reg, old(regused)); }
    }

    method GenLoadLen() returns (ok: bool, a: Arth)
      requires Valid()
      modifies this
      ensures Valid()
      ensures ok <==> Free(old(regused)) > 0
      ensures ok ==> Compiled(a, PacketLen, old(regused)) && regused == old(regused)[a.regno := true]
    {
      var reg;
      ok, reg := AllocReg();
      a := Arth([Stmt(LD + LEN, 0), Save(reg)], None, reg);
      if ok { LeafCompiled(PacketLen, Stmt(LD + LEN, 0), reg, old(regused)); }
    }

    method GenNeg(a: Arth, ghost e: Expr, ghost used: seq<bool>) returns (a': Arth)
      requires Compiled(a, e, used)
      ensures Compiled(a', Neg(e), used) && a'.regno == a.regno
    {
      NegCompiled(a, e, used);
      a' := a.(s := a.s + NegTail(a.regno));
    }

    /** The new register is taken before the one of the index is given back. */
    method GenLoad(a: Arth, size: LoadSize, h: Header, ghost e: Expr, ghost used: seq<bool>)
        returns (ok: bool, a': Arth)
      requires Valid() && Compiled(a, e, used) && regused == used[a.regno := true]
      modifies this
      ensures Valid()
      ensures ok <==> Free(used) > 1
      ensures ok ==> Compiled(a', Load(e, size, h), used) && regused == used[a'.regno := true]
    {
      var reg;
      FreeUpdate(used, a.regno);
      ok, reg := AllocReg();
      a' := a;
      if ok {
        FreeReg(a.regno);
        assert regused == used[reg := true];
        LoadCompiled(a, e, size, h, used, reg);
        a' := Arth(a.s + LoadTail(a.regno, size, h, reg), LoadChecks(a.b, h), reg);
      }
    }

    method GenArth(op: AluOp, a0: Arth, a1: Arth, ghost e0: Expr, ghost e1: Expr, ghost used: seq<bool>)
        returns (ok: bool, a: Arth)
      requires Valid() && Compiled(a0, e0, used) && Compiled(a1, e1, used[a0.regno := true])
      requires regused == used[a0.regno := true][a1.regno := true]
      modifies this
      ensures Valid()
      ensures ok <==> !((op.Div? || op.Mod?) && Leftmost(e1) == Imm(0))
      ensures ok ==> Compiled(a, Bin(op, e0, e1), used) && regused == used[a.regno := true]
    {
      a := a0;
      if (op.Div? || op.Mod?) && a1.s[0].code == LD + IMM && a1.s[0].k == 0 {
        return false, a;
      }
      FreeReg(a0.regno);
      FreeReg(a1.regno);
      assert regused == used;
      FreeUpdate(used, a0.regno);
      var reg;
      ok, reg := AllocReg();
      BinCompiled(op, a0, e0, a1, e1, used, reg);
      a := Arth(a0.s + (a1.s + BinTail(op, a0.regno, a1.regno, reg)), a0.b, reg);
    }

    /** A whole expression, as the parser's actions build it.  Compilation fails exactly when
        there are too few free registers or a divisor starts with the constant 0. */
    method GenExpr(e: Expr) returns (ok: bool, a: Arth)
      requires Valid()
      modifies this
      ensures Valid()
      ensures ok <==> Need(e) <= Free(old(regused)) && !RefusedDivisor(e)
      ensures ok ==> Compiled(a, e, old(regused)) && regused == old(regused)[a.regno := true]
      decreases e
    {
      hide Compiled;
      ghost var used := regused;
      match e {
        case Imm(v) =>
          ok, a := GenLoadI(v);
        case PacketLen =>
          ok, a := GenLoadLen();
        case Load(i, size, h) =>
          ok, a := GenExpr(i);
          if ok { ok, a := GenLoad(a, size, h, i, used); }
        case Neg(u) =>
          ok, a := GenExpr(u);
          if ok { a := GenNeg(a, u, used); }
        case Bin(op, l, r) =>
          var a0;
          ok, a0 := GenExpr(l);
          a := a0;
          if ok {
            ghost var used1 := regused;
            CompiledRegister(a0, l, used);
            FreeUpdate(used, a0.regno);
            var a1;
            ok, a1 := GenExpr(r);
            if ok {
              ok, a := GenArth(op, a0, a1, l, r, used);
            }
          }
      }
    }

    /** A relation between two expressions, when no register is in use; the registers that it
        takes are free again afterwards.  The protocol checks come first. */
    method GenRelation(rel: Relation) returns (ok: bool, t: Tree<TestCode>)
      requires Valid() && forall i :: 0 <= i < MEMWORDS ==> !regused[i]
      modifies this
      ensures Valid()
      ensures ok <==> RelationCompilable(rel)
      ensures ok ==> Compares(t, rel)
      ensures ok ==> forall i :: 0 <= i < MEMWORDS ==> !regused[i]
    {
      hide Compiled, Compares, CheckedTest;
      ghost var used := regused;
      NoneUsed(used);
      t := Prim(TestCode([], Stmt(0, 0)));
      var a0;
      ok, a0 := GenExpr(rel.left);
      if !ok { return; }
      CompiledRegister(a0, rel.left, used);
      FreeUpdate(used, a0.regno);
      var a1;
      ok, a1 := GenExpr(rel.right);
      if !ok { return; }
      CompiledRegister(a1, rel.right, used[a0.regno := true]);
      t := CheckedTest(Both(a0.b, a1.b), RelTest(rel.cmp, a0, a1), rel.reversed);
      FreeReg(a0.regno);
      FreeReg(a1.regno);
      RelationCompares(rel, a0, a1, used);
    }
  }

  // ----- what a relation means -----

  /** "left cmp right", or its negation. */
  datatype Relation = Relation(cmp: Cmp, left: Expr, right: Expr, reversed: bool)

  predicate RelationCompilable(rel: Relation) {
    && Need(rel.left) <= MEMWORDS && Need(rel.right) < MEMWORDS
    && !RefusedDivisor(rel.left) && !RefusedDivisor(rel.right)
  }

  /** The comparison of the two values; there is none if one of them is missing. */
  function Compared(rel: Relation, p: Packet): Outcome<()> {
    var v, w := Meaning(rel.left, p), Meaning(rel.right, p);
    if v.Val? && w.Val? then Answer(Test(rel.cmp, v.w, w.w) != rel.reversed, ()) else Rejects
  }

  function RelationChecks(rel: Relation): Option<Tree<Field>> { Both(Checks(rel.left), Checks(rel.right)) }

  /** The checks first; a relation whose checks fail is false, reversed or not. */
  function Judge(rel: Relation, p: Packet): Outcome<()> {
    match RelationChecks(rel)
    case None => Compared(rel, p)
    case Some(c) =>
      var o := Eval(FieldJudge(p), c, ());
      if o.Answer? && o.yes then Compared(rel, p) else o
  }

  /** Slots of its code, with two long jumps for each test. */
  function RelationSlots(rel: Relation): nat {
    StmtCount(rel.left) + StmtCount(rel.right) + 6
    + match RelationChecks(rel) case None => 0 case Some(c) => 5 * Size(c)
  }

  /** A test behind its checks. */
  function CheckedTest(checks: Option<Tree<TestCode>>, c: TestCode, reversed: bool): Tree<TestCode> {
    var t := if reversed then Not(Prim(c)) else Prim(c);
    if checks.Some? then Op(false, checks.value, t) else t
  }

  /** Tests t decide the relation, for every packet and from all registers. */
  ghost predicate Compares(t: Tree<TestCode>, rel: Relation) {
    && (forall i :: 0 <= i < Size(t) ==> TestOk(Tests(t)[i]) && StmtsOk(Tests(t)[i].stmts))
    && StmtTotal(Tests(t)) <= RelationSlots(rel)
    && forall p: Packet, r: Regs :: ComparesAt(t, rel, p, r)
  }

  ghost predicate ComparesAt(t: Tree<TestCode>, rel: Relation, p: Packet, r: Regs) {
    Agree(Eval(Evaluator(p), t, r), Judge(rel, p))
  }

  lemma RelationCompares(rel: Relation, a0: Arth, a1: Arth, used: seq<bool>)
    requires Compiled(a0, rel.left, used) && Compiled(a1, rel.right, used[a0.regno := true])
    ensures Compares(CheckedTest(Both(a0.b, a1.b), RelTest(rel.cmp, a0, a1), rel.reversed), rel)
  {
    hide Computes, EvalTest, Meaning, StmtOk, Safe, Checks, CheckCode, TestOk, RelTest, StmtCount;
    var c := RelTest(rel.cmp, a0, a1);
    var t := CheckedTest(Both(a0.b, a1.b), c, rel.reversed);
    CompiledChecks(rel, a0, a1, used);
    CompiledLength(rel, a0, a1, used);
    CheckedTestOk(rel, c);
    forall p: Packet, r: Regs
      ensures ComparesAt(t, rel, p, r)
    {
      RelationCompared(rel, a0, a1, used, p, r);
    }
  }

  lemma CompiledChecks(rel: Relation, a0: Arth, a1: Arth, used: seq<bool>)
    requires Compiled(a0, rel.left, used) && Compiled(a1, rel.right, used[a0.regno := true])
    ensures Both(a0.b, a1.b) == CodeOf(RelationChecks(rel))
  {
    hide Computes, StmtsOk, Checks, CheckCode;
    BothCoded(Checks(rel.left), Checks(rel.right));
  }

  lemma CompiledLength(rel: Relation, a0: Arth, a1: Arth, used: seq<bool>)
    requires Compiled(a0, rel.left, used) && Compiled(a1, rel.right, used[a0.regno := true])
    ensures var c := RelTest(rel.cmp, a0, a1);
      && TestOk(c) && StmtsOk(c.stmts) && |c.stmts| <= StmtCount(rel.left) + StmtCount(rel.right) + 3
  {
    RelTestOk(rel.cmp, a0, a1);
    hide Computes, StmtOk, Safe, TestOk;
  }

  /** Size and statements of a relation's code. */
  lemma CheckedTestOk(rel: Relation, c: TestCode)
    requires TestOk(c) && StmtsOk(c.stmts) && |c.stmts| <= StmtCount(rel.left) + StmtCount(rel.right) + 3
    ensures var t := CheckedTest(CodeOf(RelationChecks(rel)), c, rel.reversed);
      && (forall i :: 0 <= i < Size(t) ==> TestOk(Tests(t)[i]) && StmtsOk(Tests(t)[i].stmts))
      && StmtTotal(Tests(t)) <= RelationSlots(rel)
  {
    hide TestOk, StmtsOk, StmtCount, RelationChecks, CheckCode, StmtTotal;
    var checks := RelationChecks(rel);
    var t := CheckedTest(CodeOf(checks), c, rel.reversed);
    OneTotal(c);
    var last := if rel.reversed then Not(Prim(c)) else Prim(c);
    assert Tests(last) == [c];
    if checks.Some? {
      CheckOk(checks.value);
      CheckTotal(checks.value);
      StmtTotalAppend(Tests(CheckCode(checks.value)), [c]);
      assert Tests(t) == Tests(CheckCode(checks.value)) + [c];
    } else {
      assert Tests(t) == [c];
    }
  }

  /** Checks and comparison together. */
  lemma RelationCompared(rel: Relation, a0: Arth, a1: Arth, used: seq<bool>, p: Packet, r: Regs)
    requires Compiled(a0, rel.left, used) && Compiled(a1, rel.right, used[a0.regno := true])
    ensures var t := CheckedTest(CodeOf(RelationChecks(rel)), RelTest(rel.cmp, a0, a1), rel.reversed);
      ComparesAt(t, rel, p, r)
  {
    hide Compiled, EvalTest, Meaning, Test, RelationChecks, CheckCode, RelTest;
    CompiledRegister(a0, rel.left, used);
    CompiledRegister(a1, rel.right, used[a0.regno := true]);
    var checks, c := RelationChecks(rel), RelTest(rel.cmp, a0, a1);
    if checks.Some? {
      CheckTested(checks.value, p, r);
      var o := Eval(Evaluator(p), CheckCode(checks.value), r);
      if o.Answer? { ComparisonTested(rel, a0, a1, used, p, o.r); }
    } else {
      ComparisonTested(rel, a0, a1, used, p, r);
    }
  }

  lemma ComparisonTested(rel: Relation, a0: Arth, a1: Arth, used: seq<bool>, p: Packet, r: Regs)
    requires Compiled(a0, rel.left, used) && Compiled(a1, rel.right, used[a0.regno := true])
    ensures Agree(Eval(Evaluator(p), CheckedTest(None, RelTest(rel.cmp, a0, a1), rel.reversed), r), Compared(rel, p))
  {
    hide Compiled, EvalTest, Meaning, Test, RelTest;
    CompiledRegister(a0, rel.left, used);
    CompiledRegister(a1, rel.right, used[a0.regno := true]);
    RelationTested(rel.cmp, a0, rel.left, a1, rel.right, used, p, r);
    assert Eval(Evaluator(p), Prim(RelTest(rel.cmp, a0, a1)), r) == EvalTest(RelTest(rel.cmp, a0, a1), p, r);
  }

  lemma RelTestOk(cmp: Cmp, a0: Arth, a1: Arth)
    requires a0.regno < MEMWORDS && a1.regno < MEMWORDS && StmtsOk(a0.s) && StmtsOk(a1.s)
    ensures var c := RelTest(cmp, a0, a1); TestOk(c) && StmtsOk(c.stmts)
  {
    RelTailOk(cmp, a0.regno, a1.regno);
    hide StmtOk, Safe, RelTail, RelBranch, IsBranch;
  }

  lemma RelTailOk(cmp: Cmp, left: Word, right: Word)
    requires left < MEMWORDS && right < MEMWORDS
    ensures StmtsOk(RelTail(cmp, left, right)) && IsBranch(RelBranch(cmp))
  {
  }

  lemma {:induction false} NoneUsed(used: seq<bool>)
    requires forall i :: 0 <= i < |used| ==> !used[i]
    ensures Free(used) == |used|
  {
    if used != [] { NoneUsed(used[1..]); }
  }
}
