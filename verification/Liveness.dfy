/**
 Use-definition analysis and dead-store removal: atomuse, atomdef, compute_local_ud, find_ud,
 deadstmt and opt_deadstores of deps/libpcap/optimize.c.

 An atom is a scratch register (0..15), the accumulator A_ATOM or the index register X_ATOM.
 */
module Liveness {
  import opened Machine
  import opened Flow
  import opened Validator
  import opened WordLaws

  const A_ATOM := MEMWORDS
  const X_ATOM := MEMWORDS + 1
  const N_ATOMS := MEMWORDS + 2
  /** Both A and X. */
  const AX_ATOM := N_ATOMS

  /** The register that a statement uses, AX_ATOM for A and X, or -1. */
  function AtomUse(s: Stmt): int {
    if s.code < 0 then -1
    else if Class(s.code) == RET then
      (if RVal(s.code) == A then A_ATOM else if RVal(s.code) == X then X_ATOM else -1)
    else if Class(s.code) == LD || Class(s.code) == LDX then
      (if Mode(s.code) == IND then X_ATOM else if Mode(s.code) == MEM then s.k else -1)
    else if Class(s.code) == ST then A_ATOM
    else if Class(s.code) == STX then X_ATOM
    else if Class(s.code) == JMP || Class(s.code) == ALU then
      (if Src(s.code) == X then AX_ATOM else A_ATOM)
    else if MiscOp(s.code) == TXA then X_ATOM else A_ATOM
  }

  /** The register that a statement defines, or -1. */
  function AtomDef(s: Stmt): int {
    if s.code < 0 then -1
    else if Class(s.code) == LD || Class(s.code) == ALU then A_ATOM
    else if Class(s.code) == LDX then X_ATOM
    else if Class(s.code) == ST || Class(s.code) == STX then s.k
    else if Class(s.code) == MISC then (if MiscOp(s.code) == TAX then X_ATOM else A_ATOM)
    else -1
  }

  // The masks & 0x18 and & 0xf8.
  function RVal(code: nat): nat { code / 8 % 4 * 8 }
  function MiscOp(code: nat): nat { code / 8 % 32 * 8 }

  function Uses(s: Stmt): set<int> {
    var a := AtomUse(s);
    if a < 0 then {} else if a == AX_ATOM then {A_ATOM, X_ATOM} else {a}
  }

  function Defs(s: Stmt): set<int> {
    var a := AtomDef(s); if a < 0 then {} else {a}
  }

  /** Only the test of a branch counts as a use at the end of a block, not a returned value. */
  function BranchUses(br: Stmt): set<int> {
    if br.code >= 0 && Class(br.code) == JMP then Uses(br) else {}
  }

  // ----- what uses and definitions mean for the machine -----

  function Get(r: Regs, atom: int): Word
    requires 0 <= atom < N_ATOMS
  {
    if atom == A_ATOM then r.a else if atom == X_ATOM then r.x else r.mem[atom]
  }

  ghost predicate Agree(r: Regs, r': Regs, s: set<int>) {
    forall t :: t in s && 0 <= t < N_ATOMS ==> Get(r, t) == Get(r', t)
  }

  /** The operation that the masks select, for the statements that may occur in a block. */
  function OpUses(op: Op, k: Word): set<int> {
    match op
    case LdInd(_) => {X_ATOM}
    case LdMem => {k}
    case LdxMem => {k}
    case StA => {A_ATOM}
    case StX => {X_ATOM}
    case AluX(_) => {A_ATOM, X_ATOM}
    case AluK(_) => {A_ATOM}
    case Negate => {A_ATOM}
    case AtoX => {A_ATOM}
    case XtoA => {X_ATOM}
    case _ => {}
  }

  function OpDefs(op: Op, k: Word): set<int> {
    match op
    case LdxLen => {X_ATOM}
    case LdxMsh => {X_ATOM}
    case LdxImm => {X_ATOM}
    case LdxMem => {X_ATOM}
    case AtoX => {X_ATOM}
    case StA => {k}
    case StX => {k}
    case _ => {A_ATOM}
  }

  lemma AluDecoded(s: Stmt)
    requires s.code % 8 == ALU && IsPlain(Decode(s.code))
    ensures s.code >= 0
    ensures AtomUse(s) == if Decode(s.code).AluX? then AX_ATOM else A_ATOM
    ensures Decode(s.code).AluX? || Decode(s.code).AluK? || Decode(s.code).Negate?
  {
  }

  lemma LoadDecoded(s: Stmt)
    requires s.code % 8 in {LD, LDX} && IsPlain(Decode(s.code)) && Safe(s)
    ensures s.code >= 0
    ensures Uses(s) == OpUses(Decode(s.code), s.k) && Defs(s) == OpDefs(Decode(s.code), s.k)
  {
  }

  lemma OtherDecoded(s: Stmt)
    requires s.code % 8 !in {ALU, LD, LDX} && IsPlain(Decode(s.code)) && Safe(s)
    ensures s.code >= 0
    ensures Uses(s) == OpUses(Decode(s.code), s.k) && Defs(s) == OpDefs(Decode(s.code), s.k)
  {
    assert Decode(s.code) in {StA, StX, AtoX, XtoA};
  }

  lemma Decoded(s: Stmt)
    requires IsPlain(Decode(s.code)) && Safe(s)
    ensures Uses(s) == OpUses(Decode(s.code), s.k) && Defs(s) == OpDefs(Decode(s.code), s.k)
  {
    hide Decode;
    if s.code % 8 == ALU {
      AluDecoded(s);
    } else if s.code % 8 in {LD, LDX} {
      LoadDecoded(s);
    } else {
      OtherDecoded(s);
    }
  }

  /** An operation reads only what it uses and changes only what it defines. */
  lemma OpDependsOnUses(op: Op, k: Word, p: Packet, r: Regs, r': Regs)
    requires IsPlain(op) && Agree(r, r', OpUses(op, k))
    requires op.LdMem? || op.LdxMem? || op.StA? || op.StX? ==> k < MEMWORDS
    ensures Exec(op, k, p, r).Next? <==> Exec(op, k, p, r').Next?
    ensures Exec(op, k, p, r).Reject? <==> Exec(op, k, p, r').Reject?
    ensures Exec(op, k, p, r).Next? ==>
      forall t :: t in OpDefs(op, k) ==> 0 <= t < N_ATOMS && Get(Exec(op, k, p, r).r, t) == Get(Exec(op, k, p, r').r, t)
  {
    hide Compute, Extract;
    assert A_ATOM in OpUses(op, k) ==> r.a == Get(r, A_ATOM) == Get(r', A_ATOM) == r'.a;
    assert X_ATOM in OpUses(op, k) ==> r.x == Get(r, X_ATOM) == Get(r', X_ATOM) == r'.x;
    assert k < MEMWORDS && k in OpUses(op, k) ==> r.mem[k] == Get(r, k) == Get(r', k) == r'.mem[k];
  }

  lemma OpChangesDefs(op: Op, k: Word, p: Packet, r: Regs)
    requires IsPlain(op) && Exec(op, k, p, r).Next?
    ensures forall t :: 0 <= t < N_ATOMS && t !in OpDefs(op, k) ==> Get(Exec(op, k, p, r).r, t) == Get(r, t)
  {
    hide Compute, Extract;
  }

  predicate Differ(r: Regs, r': Regs, d: int) { 0 <= d < N_ATOMS && Get(r, d) != Get(r', d) }

  /** Everything that an operation is said to use matters: for some operand and packet the effect
      differs between two states that differ in that atom only. */
  lemma UsesMatter(op: Op, k0: Word, t: int) returns (k: Word, p: Packet, r: Regs, r': Regs)
    requires IsPlain(op) && t in OpUses(op, k0) && (op.LdMem? || op.LdxMem? ==> k0 < MEMWORDS)
    ensures t in OpUses(op, k) && 0 <= t < N_ATOMS && forall a :: 0 <= a < N_ATOMS && a != t ==> Get(r, a) == Get(r', a)
    ensures Exec(op, k, p, r).Next? && Exec(op, k, p, r').Next?
    ensures exists d :: d in OpDefs(op, k) && Differ(Exec(op, k, p, r).r, Exec(op, k, p, r').r, d)
  {
    p := PacketData([0, 0, 0, 0, 1], 5);
    k, r := k0, RegFile(0, 0, seq(MEMWORDS, _ => 0));
    r' := r;
    match op
    case LdInd(size) =>
      k, r' := 0, r.(x := 5 - SizeOf(size));
      ExtractLaws(p, 0);
      ExtractLaws(p, 5 - SizeOf(size));
      assert A_ATOM in OpDefs(op, k);
    case LdMem =>
      r' := r.(mem := r.mem[k := 1]);
      assert A_ATOM in OpDefs(op, k);
    case LdxMem =>
      r' := r.(mem := r.mem[k := 1]);
      assert X_ATOM in OpDefs(op, k);
    case StA =>
      k, r' := 0, r.(a := 1);
      assert 0 in OpDefs(op, k);
    case StX =>
      k, r' := 0, r.(x := 1);
      assert 0 in OpDefs(op, k);
    case AluK(alu) =>
      r, r' := AccumulatorMatters(alu);
      k := r.x;
      assert A_ATOM in OpDefs(op, k);
    case AluX(alu) =>
      if t == A_ATOM {
        r, r' := AccumulatorMatters(alu);
      } else {
        r, r' := IndexMatters(alu);
      }
      assert A_ATOM in OpDefs(op, k);
    case Negate =>
      r' := r.(a := 1);
      assert A_ATOM in OpDefs(op, k);
    case AtoX =>
      r' := r.(a := 1);
      assert X_ATOM in OpDefs(op, k);
    case XtoA =>
      r' := r.(x := 1);
      assert A_ATOM in OpDefs(op, k);
    case _ =>
  }

  lemma AccumulatorMatters(alu: AluOp) returns (r: Regs, r': Regs)
    ensures r' == r.(a := r'.a) && (alu.Div? || alu.Mod? ==> r.x != 0)
    ensures Compute(alu, r.a, r.x) != Compute(alu, r'.a, r.x)
  {
    hide BitAnd, BitOr, BitXor, ShiftLeft, ShiftRight;
    var x: Word := if alu.Mod? then 2 else if alu.Mul? || alu.Div? || alu.And? then 1 else 0;
    r := RegFile(0, x, seq(MEMWORDS, _ => 0));
    r' := r.(a := 1);
    LowestBits(0, x);
    LowestBits(1, x);
    if alu.Lsh? || alu.Rsh? {
      ShiftLaws(0, 0, 0);
      ShiftLaws(1, 0, 0);
    }
  }

  lemma IndexMatters(alu: AluOp) returns (r: Regs, r': Regs)
    ensures r' == r.(x := r'.x) && (alu.Div? || alu.Mod? ==> r.x != 0 && r'.x != 0)
    ensures Compute(alu, r.a, r.x) != Compute(alu, r.a, r'.x)
  {
    hide BitAnd, BitOr, BitXor, ShiftLeft, ShiftRight;
    var a: Word := if alu.Div? then 2 else if alu.Add? || alu.Or? || alu.Xor? then 0 else 1;
    var low: Word, high: Word := if alu.Div? || alu.Mod? then 1 else 0, if alu.Div? || alu.Mod? then 2 else 1;
    r := RegFile(a, low, seq(MEMWORDS, _ => 0));
    r' := r.(x := high);
    LowestBits(a, low);
    LowestBits(a, high);
    if alu.Lsh? || alu.Rsh? {
      ShiftLaws(1, 0, 0);
      ShiftLaws(1, 1, 0);
      BitNext(1, 0);
      BitZero(0);
    }
  }

  lemma LowestBits(a: Word, b: Word)
    ensures Compute(And, a, b) % 2 == 1 <==> a % 2 == 1 && b % 2 == 1
    ensures Compute(Or, a, b) % 2 == 1 <==> a % 2 == 1 || b % 2 == 1
    ensures Compute(Xor, a, b) % 2 == 1 <==> a % 2 != b % 2
    ensures forall v: Word :: Bit(v, 0) <==> v % 2 == 1
  {
    hide Compute;
    BitwiseLaws(a, b, 0);
    forall v: Word ensures Bit(v, 0) <==> v % 2 == 1 { BitZero(v); }
  }

  predicate Good(s: Stmt) { StmtOk(s) && Safe(s) }

  predicate AllGood(ss: seq<Stmt>) { forall s :: s in ss ==> Good(s) }

  /** One statement, run from two states that agree on what is live before it. */
  lemma StmtAgrees(s: Stmt, p: Packet, r: Regs, r': Regs, live: set<int>)
    requires Good(s) && Agree(r, r', Uses(s) + (live - Defs(s)))
    ensures var e, e' := RunStmt(s, p, r), RunStmt(s, p, r');
      && (e.Next? <==> e'.Next?) && (e.Reject? <==> e'.Reject?)
      && (e.Next? ==> Agree(e.r, e'.r, live))
  {
    if s.code != NOP {
      Decoded(s);
      var op := Decode(s.code);
      hide Decode, Uses, Defs, Exec, IsPlain;
      assert Agree(r, r', OpUses(op, s.k));
      OpDependsOnUses(op, s.k, p, r, r');
      var e, e' := Exec(op, s.k, p, r), Exec(op, s.k, p, r');
      if e.Next? {
        OpChangesDefs(op, s.k, p, r);
        OpChangesDefs(op, s.k, p, r');
      }
    }
  }

  /** A statement whose definition is not live leaves the live atoms alone. */
  lemma DeadStmtAgrees(s: Stmt, p: Packet, r: Regs, r': Regs, live: set<int>)
    requires Good(s) && s.code != NOP && Agree(r, r', live) && Defs(s) !! live && RunStmt(s, p, r).Next?
    ensures Agree(RunStmt(s, p, r).r, r', live)
  {
    Decoded(s);
    OpChangesDefs(Decode(s.code), s.k, p, r);
  }

  // ----- backward liveness, the reference definition -----

  /** The atoms that are live before ss if those in `after` are live behind it. */
  function LiveBefore(ss: seq<Stmt>, after: set<int>): set<int> {
    if ss == [] then after else Uses(ss[0]) + (LiveBefore(ss[1..], after) - Defs(ss[0]))
  }

  ghost function LiveIn(g: Graph, rank: map<int, nat>, b: int): set<int>
    requires Ranked(g, rank) && b in rank
    decreases rank[b], 1
  {
    LiveBefore(g[b].stmts, BranchUses(g[b].br) + LiveOut(g, rank, b))
  }

  ghost function LiveOut(g: Graph, rank: map<int, nat>, b: int): set<int>
    requires Ranked(g, rank) && b in rank
    decreases rank[b], 0
  {
    if Leaf(g[b]) then {} else LiveIn(g, rank, g[b].jt) + LiveIn(g, rank, g[b].jf)
  }

  lemma {:induction false} StmtsAgree(ss: seq<Stmt>, p: Packet, r: Regs, r': Regs, after: set<int>)
    requires AllGood(ss) && Agree(r, r', LiveBefore(ss, after))
    ensures var e, e' := RunStmts(ss, p, r), RunStmts(ss, p, r');
      && (e.Next? <==> e'.Next?) && (e.Reject? <==> e'.Reject?)
      && (e.Next? ==> Agree(e.r, e'.r, after))
  {
    hide StmtOk, Safe, RunStmt, Uses, Defs;
    if ss != [] {
      StmtAgrees(ss[0], p, r, r', LiveBefore(ss[1..], after));
      var e, e' := RunStmt(ss[0], p, r), RunStmt(ss[0], p, r');
      if e.Next? { StmtsAgree(ss[1..], p, e.r, e'.r, after); }
    }
  }

  lemma BranchAgrees(br: Stmt, r: Regs, r': Regs)
    requires IsBranch(br) && Agree(r, r', BranchUses(br))
    ensures Taken(br, r) == Taken(br, r')
  {
    BranchDecoded(br);
    hide Decode, BranchUses;
    assert Get(r, A_ATOM) == r.a && Get(r', A_ATOM) == r'.a;
    assert Get(r, X_ATOM) == r.x && Get(r', X_ATOM) == r'.x;
  }

  lemma BranchDecoded(br: Stmt)
    requires IsBranch(br)
    ensures BranchUses(br) == if Decode(br.code).JmpX? then {A_ATOM, X_ATOM} else {A_ATOM}
  {
  }

  ghost predicate GoodBlocks(g: Graph, rank: map<int, nat>)
    requires Ranked(g, rank)
  {
    forall b :: b in rank ==> AllGood(g[b].stmts)
  }

  ghost predicate ConstantReturns(g: Graph, rank: map<int, nat>)
    requires Ranked(g, rank)
  {
    GoodBlocks(g, rank) && forall b :: b in rank && Leaf(g[b]) ==> Decode(g[b].br.code).RetK?
  }

  /** A leaf whose returned value adds nothing to what its statements use: it returns a constant,
      or an accumulator that they define or use. */
  predicate Covered(b: Block) { Decode(b.br.code).RetK? || exists s :: s in b.stmts && A_ATOM in Uses(s) + Defs(s) }

  ghost predicate CoveredReturns(g: Graph, rank: map<int, nat>)
    requires Ranked(g, rank)
  {
    GoodBlocks(g, rank) && forall b :: b in rank && Leaf(g[b]) ==> Covered(g[b])
  }

  lemma CoveredIsGood(g: Graph, rank: map<int, nat>)
    requires Ranked(g, rank) && CoveredReturns(g, rank)
    ensures GoodBlocks(g, rank)
  {
  }

  /** Liveness is sound: states that agree on what is live at a block give the same result. */
  lemma {:induction false} LivenessSound(g: Graph, rank: map<int, nat>, b: int, p: Packet, r: Regs, r': Regs)
    requires Ranked(g, rank) && b in rank && CoveredReturns(g, rank) && Agree(r, r', LiveIn(g, rank, b))
    ensures Run(g, rank, p, b, r) == Run(g, rank, p, b, r')
    decreases rank[b]
  {
    hide StmtOk, IsBranch, RunStmts, LiveBefore, BranchUses, Uses, Decode, Taken, AllGood, Covered, ReturnValue;
    assert AllGood(g[b].stmts);
    EndUses(g, rank, b);
    StmtsAgree(g[b].stmts, p, r, r', Uses(g[b].br) + LiveOut(g, rank, b));
    var e, e' := RunStmts(g[b].stmts, p, r), RunStmts(g[b].stmts, p, r');
    if e.Next? {
      if Leaf(g[b]) {
        ReturnAgrees(g[b].br, e.r, e'.r);
      } else {
        BranchAgrees(g[b].br, e.r, e'.r);
        LivenessSound(g, rank, if Taken(g[b].br, e.r) then g[b].jt else g[b].jf, p, e.r, e'.r);
      }
    }
  }

  lemma LeafLiveIn(g: Graph, rank: map<int, nat>, b: int)
    requires Ranked(g, rank) && b in rank && Leaf(g[b])
    ensures LiveIn(g, rank, b) == LiveBefore(g[b].stmts, {})
  {
    hide LiveBefore;
    assert BranchUses(g[b].br) + LiveOut(g, rank, b) == {};
  }

  /** Counting the accumulator as used at the end changes nothing if a statement uses or defines it. */
  lemma {:induction false} EndUseCovered(ss: seq<Stmt>, s: Stmt)
    requires s in ss && A_ATOM in Uses(s) + Defs(s)
    ensures LiveBefore(ss, {A_ATOM}) == LiveBefore(ss, {})
  {
    hide Uses, Defs;
    if s in ss[1..] {
      EndUseCovered(ss[1..], s);
    } else {
      assert s == ss[0];
      LastUse(ss[1..]);
    }
  }

  lemma {:induction false} LastUse(ss: seq<Stmt>)
    ensures LiveBefore(ss, {A_ATOM}) <= LiveBefore(ss, {}) + {A_ATOM}
    ensures LiveBefore(ss, {}) <= LiveBefore(ss, {A_ATOM})
  {
    hide Uses, Defs;
    if ss != [] { LastUse(ss[1..]); }
  }

  /** So what a covered leaf returns and what any block branches on is live there. */
  lemma EndUses(g: Graph, rank: map<int, nat>, b: int)
    requires Ranked(g, rank) && b in rank && (Leaf(g[b]) ==> Covered(g[b]))
    ensures LiveBefore(g[b].stmts, Uses(g[b].br) + LiveOut(g, rank, b)) == LiveIn(g, rank, b)
    ensures !Leaf(g[b]) ==> Uses(g[b].br) == BranchUses(g[b].br)
  {
    hide LiveBefore, Decode, Uses, Defs;
    var br := g[b].br;
    if Leaf(g[b]) {
      LeafLiveIn(g, rank, b);
      ReturnUses(br);
      assert Uses(br) + LiveOut(g, rank, b) == Uses(br);
      if !Decode(br.code).RetK? {
        var s :| s in g[b].stmts && A_ATOM in Uses(s) + Defs(s);
        EndUseCovered(g[b].stmts, s);
      }
    } else {
      BranchIsUse(br);
    }
  }

  lemma ReturnUses(br: Stmt)
    requires IsReturn(br)
    ensures Uses(br) == if Decode(br.code).RetK? then {} else {A_ATOM}
  {
  }

  lemma BranchIsUse(br: Stmt)
    requires IsBranch(br)
    ensures Uses(br) == BranchUses(br)
  {
  }

  lemma ReturnAgrees(br: Stmt, r: Regs, r': Regs)
    requires IsReturn(br) && Agree(r, r', Uses(br))
    ensures ReturnValue(br, r) == ReturnValue(br, r')
  {
    ReturnUses(br);
    hide Decode, Uses;
    assert A_ATOM in Uses(br) ==> Get(r, A_ATOM) == Get(r', A_ATOM);
  }

  /** The condition is exact: at a leaf whose statements run to the end, states that agree on what is
      live give the same result if and only if the leaf is covered. */
  lemma LivenessExactAtLeaf(g: Graph, rank: map<int, nat>, b: int, p: Packet, r: Regs)
    requires Ranked(g, rank) && b in rank && Leaf(g[b]) && AllGood(g[b].stmts) && RunStmts(g[b].stmts, p, r).Next?
    ensures Covered(g[b]) <==>
      forall r' :: Agree(r, r', LiveIn(g, rank, b)) ==> Run(g, rank, p, b, r) == Run(g, rank, p, b, r')
  {
    hide LiveIn, Decode, RunStmts, Covered, AllGood, LiveBefore, Uses, ReturnValue;
    LeafLiveIn(g, rank, b);
    if Covered(g[b]) {
      forall r' | Agree(r, r', LiveIn(g, rank, b)) ensures Run(g, rank, p, b, r) == Run(g, rank, p, b, r') {
        EndUses(g, rank, b);
        StmtsAgree(g[b].stmts, p, r, r', Uses(g[b].br) + LiveOut(g, rank, b));
        ReturnAgrees(g[b].br, RunStmts(g[b].stmts, p, r).r, RunStmts(g[b].stmts, p, r').r);
      }
    } else {
      var r' := r.(a := if r.a == 0 then 1 else 0);
      UncoveredUntouched(g[b], p, r, r');
    }
  }

  /** Otherwise nothing sees the accumulator before it is returned. */
  lemma UncoveredUntouched(b: Block, p: Packet, r: Regs, r': Regs)
    requires BlockOk(b) && Leaf(b) && AllGood(b.stmts) && !Covered(b) && RunStmts(b.stmts, p, r).Next?
    requires r' == r.(a := r'.a) && r'.a != r.a
    ensures Agree(r, r', LiveBefore(b.stmts, {})) && RunStmts(b.stmts, p, r').Next?
    ensures ReturnValue(b.br, RunStmts(b.stmts, p, r).r) != ReturnValue(b.br, RunStmts(b.stmts, p, r').r)
  {
    hide AllGood, RunStmts, LiveBefore, Decode, Uses, Defs;
    NotLive(b.stmts);
    StmtsAgree(b.stmts, p, r, r', {});
    NotChanged(b.stmts, p, r);
    NotChanged(b.stmts, p, r');
  }

  lemma {:induction false} NotLive(ss: seq<Stmt>)
    requires forall s :: s in ss ==> A_ATOM !in Uses(s) + Defs(s)
    ensures A_ATOM !in LiveBefore(ss, {})
  {
    hide Uses, Defs;
    if ss != [] { NotLive(ss[1..]); }
  }

  lemma {:induction false} NotChanged(ss: seq<Stmt>, p: Packet, r: Regs)
    requires AllGood(ss) && RunStmts(ss, p, r).Next? && forall s :: s in ss ==> A_ATOM !in Uses(s) + Defs(s)
    ensures RunStmts(ss, p, r).r.a == r.a
  {
    hide StmtOk, Safe, RunStmt, Uses, Defs;
    if ss != [] {
      KeepsAccumulator(ss[0], p, r);
      NotChanged(ss[1..], p, RunStmt(ss[0], p, r).r);
    }
  }

  lemma KeepsAccumulator(s: Stmt, p: Packet, r: Regs)
    requires Good(s) && A_ATOM !in Defs(s) && RunStmt(s, p, r).Next?
    ensures RunStmt(s, p, r).r.a == r.a
  {
    if s.code != NOP {
      Decoded(s);
      OpChangesDefs(Decode(s.code), s.k, p, r);
      assert Get(RunStmt(s, p, r).r, A_ATOM) == Get(r, A_ATOM);
    }
  }

  /** The use-definition pass does not look at returns, so a leaf that returns the accumulator
      is outside the theorem: nothing is live at it, and its result still depends on A. */
  lemma ReturnedAccumulatorIsMissed(p: Packet, r: Regs)
    ensures var g, rank := [Block([], Stmt(RET + A, 0), NULL, NULL, false, 0)], map[0 := 0];
      && Ranked(g, rank) && LiveIn(g, rank, 0) == {}
      && Run(g, rank, p, 0, r.(a := 0)) != Run(g, rank, p, 0, r.(a := 1))
  {
    var s := Stmt(RET + A, 0);
    assert Decode(s.code) == RetA;
    assert BranchUses(s) == {};
    hide Decode, BranchUses;
    var g := [Block([], s, NULL, NULL, false, 0)];
    var rank := map[0 := 0];
    assert Ranked(g, rank);
    assert LiveOut(g, rank, 0) == {};
    assert RunStmts(g[0].stmts, p, r.(a := 0)) == Next(r.(a := 0));
    assert RunStmts(g[0].stmts, p, r.(a := 1)) == Next(r.(a := 1));
  }
}
