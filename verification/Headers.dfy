/**
 Protocol headers behind a link header of fixed length, and the code that checks whether a
 packet has them: gen_ncmp, gen_ipfrag and the block that gen_proto_abbrev makes
 (deps/libpcap/gencode.c).  What a protocol's check compares is given: a tree of fields.
 */
module Headers {
  import opened Basics
  import opened Machine
  import opened Flow
  import opened BoolExpr
  import opened Backpatch
  import opened FilterGraph
  import opened WordLaws

  /** A comparison of a packet field with a constant. */
  datatype Field = Field(at: Word, size: LoadSize, mask: Word, cmp: Cmp, value: Word)

  /** Where a load starts to count and what must hold for it: nothing for the link header, the
      protocol's own check for a network header, and for a transport header that the packet is IP,
      has the protocol and is the first fragment. */
  datatype Header =
    | Link(offset: Word)
    | Network(offset: Word, check: Tree<Field>)
    | Transport(offset: Word, ip: Tree<Field>, proto: Tree<Field>)

  const ALL_BITS: Word := 0xffff_ffff

  /** The fragment offset is 0. */
  function FirstFragment(offset: Word): Tree<Field> {
    Not(Prim(Field(Wrap(offset + 6), Half2, ALL_BITS, Set, 0x1fff)))
  }

  // ----- what a header means -----

  function Masked(v: Word, mask: Word): Word { if mask == ALL_BITS then v else BitAnd(v, mask) }

  function FieldOutcome(f: Field, p: Packet): Outcome<()> {
    if f.at + SizeOf(f.size) > |p.data| then Rejects
    else Answer(Test(f.cmp, Masked(Extract(p, f.at, f.size), f.mask), f.value), ())
  }

  function FieldJudge(p: Packet): (Field, ()) -> Outcome<()> {
    (f: Field, u: ()) => FieldOutcome(f, p)
  }

  /** The position of byte `index` of a header, if the packet tells. */
  function Position(h: Header, index: Word, p: Packet): Option<nat> {
    match h
    case Link(offset) => Some(index + offset)
    case Network(offset, _) => Some(index + offset)
    case Transport(offset, _, _) =>
      if offset < |p.data| then Some(Wrap(index + p.data[offset] % 16 * 4) + offset) else None
  }

  /** The checks a load adds to those of its index. */
  function Guarded(h: Header, inner: Option<Tree<Field>>): Option<Tree<Field>> {
    match h
    case Link(_) => inner
    case Network(_, check) => Both(inner, Some(check))
    case Transport(offset, ip, proto) =>
      Both(Some(ip), Both(inner, Some(Op(false, proto, FirstFragment(offset)))))
  }

  function Both<T>(a: Option<Tree<T>>, b: Option<Tree<T>>): Option<Tree<T>> {
    if a.Some? && b.Some? then Some(Op(false, a.value, b.value)) else if a.Some? then a else b
  }

  /** Which packets pass: those whose 13 low bits at bytes 6 and 7 of the IP header are zero. */
  lemma FirstFragmentIs(offset: Word, p: Packet)
    requires offset + 8 <= |p.data|
    ensures Eval(FieldJudge(p), FirstFragment(offset), ()) ==
      Answer(FragmentOffset(p.data[offset + 6], p.data[offset + 7]) == 0, ())
  {
    hide Extract, Test, Eval, FieldOutcome, FragmentOffset, Bytes2;
    var v: Word := Extract(p, offset + 6, Half2);
    ExtractLaws(p, offset + 6);
    LowBits(v);
    LowHalf(p.data[offset + 6], p.data[offset + 7]);
    FragmentField(offset, p);
  }

  lemma FragmentField(offset: Word, p: Packet)
    requires offset + 8 <= |p.data|
    ensures var v := Extract(p, offset + 6, Half2);
      Eval(FieldJudge(p), FirstFragment(offset), ()) == Answer(!Test(Set, v, 0x1fff), ())
  {
    hide Extract, Test;
    var f := Field(offset + 6, Half2, ALL_BITS, Set, 0x1fff);
    assert Eval(FieldJudge(p), Prim(f), ()) == FieldOutcome(f, p);
  }

  /** The fragment offset in two bytes of an IP header. */
  function FragmentOffset(high: int, low: int): int { high % 32 * 256 + low }

  lemma LowHalf(high: Byte, low: Byte)
    ensures Bytes2(high, low) % 0x2000 == FragmentOffset(high, low)
  {
  }

  /** Otherwise the filter rejects. */
  lemma FirstFragmentBeyond(offset: Word, p: Packet)
    requires offset < 0xffff_fff0 && offset + 8 > |p.data|
    ensures Eval(FieldJudge(p), FirstFragment(offset), ()).Rejects?
  {
  }

  /** JSET with 0x1fff looks at the 13 low bits. */
  lemma LowBits(v: Word)
    ensures Test(Set, v, 0x1fff) <==> v % 0x2000 != 0
  {
    TestLaws(v, 0x1fff);
    Pow2Values();
    assert Pow2(13) == 0x2000;
    NonzeroHasBit(v % 0x2000, 13);
    forall i | 0 <= i < 32 ensures Bit(0x1fff, i) <==> i < 13 { MaskBit(13, i); }
    forall i | 0 <= i < 13 ensures Bit(v % 0x2000, i) == Bit(v, i) { HalfBits(v, 13, i); }
  }

  // ----- the code of a check -----

  predicate StmtsOk(s: seq<Stmt>) { forall x :: x in s ==> StmtOk(x) && Safe(x) }

  lemma RunCons(a: Stmt, rest: seq<Stmt>, p: Packet, r: Regs)
    requires StmtOk(a) && StmtsOk(rest)
    ensures RunStmts([a] + rest, p, r) == var e := RunStmt(a, p, r); if e.Next? then RunStmts(rest, p, e.r) else e
  {
    assert ([a] + rest)[1..] == rest;
  }

  function SizeCode(size: LoadSize): int {
    match size
    case Word4 => W
    case Half2 => H
    case Byte1 => B
  }

  function FieldLoad(f: Field): Stmt { Stmt(LD + ABS + SizeCode(f.size), f.at) }

  function FieldMask(f: Field): seq<Stmt> { if f.mask == ALL_BITS then [] else [Stmt(ALU + AND + K, f.mask)] }

  function FieldBranch(f: Field): Stmt {
    Stmt(JMP + K + match f.cmp case Eq => JEQ case Gt => JGT case Ge => JGE case Set => JSET, f.value)
  }

  /** gen_ncmp. */
  function FieldTest(f: Field): TestCode { TestCode([FieldLoad(f)] + FieldMask(f), FieldBranch(f)) }

  function CheckCode(t: Tree<Field>): Tree<TestCode> {
    match t
    case Prim(f) => Prim(FieldTest(f))
    case Not(u) => Not(CheckCode(u))
    case Op(or, u, v) => Op(or, CheckCode(u), CheckCode(v))
  }

  function CodeOf(t: Option<Tree<Field>>): Option<Tree<TestCode>> {
    match t
    case None => None
    case Some(c) => Some(CheckCode(c))
  }

  // ----- and that it checks -----

  /** A machine that does what the meaning says. */
  ghost predicate Agree(o: Outcome<Regs>, o': Outcome<()>) {
    if o'.Answer? then o.Answer? && o.yes == o'.yes else o.Rejects? && o'.Rejects?
  }

  lemma FieldDecodes(f: Field)
    ensures Decode(FieldLoad(f).code) == LdAbs(f.size) && Decode(FieldBranch(f).code) == JmpK(f.cmp)
    ensures Decode(ALU + AND + K) == AluK(And)
  {
  }

  lemma FieldOk(f: Field)
    ensures StmtsOk(FieldTest(f).stmts) && TestOk(FieldTest(f)) && 1 <= |FieldTest(f).stmts| <= 2
  {
    FieldDecodes(f);
    hide Decode;
  }

  lemma FieldTested(f: Field, p: Packet, r: Regs)
    ensures TestOk(FieldTest(f)) && Agree(EvalTest(FieldTest(f), p, r), FieldOutcome(f, p))
  {
    FieldOk(f);
    FieldLoads(f, p, r);
    RunCons(FieldLoad(f), FieldMask(f), p, r);
    hide Decode, StmtOk, Safe, FieldLoad, FieldMask, FieldBranch, RunStmt, RunStmts, Taken, IsBranch;
    if f.at + SizeOf(f.size) <= |p.data| {
      FieldMasks(f, p, r.(a := Extract(p, f.at, f.size)));
      FieldTaken(f, r.(a := Masked(Extract(p, f.at, f.size), f.mask)));
    }
  }

  lemma FieldLoads(f: Field, p: Packet, r: Regs)
    ensures StmtOk(FieldLoad(f)) && StmtsOk(FieldMask(f)) && RunStmt(FieldLoad(f), p, r) == LoadAbs(p, f.at, f.size, r)
  {
    FieldDecodes(f);
    hide Decode;
  }

  lemma FieldMasks(f: Field, p: Packet, r: Regs)
    ensures StmtsOk(FieldMask(f)) && RunStmts(FieldMask(f), p, r) == Next(r.(a := Masked(r.a, f.mask)))
  {
    hide RunStmts, RunStmt, StmtOk, Safe, BitAnd;
    if f.mask != ALL_BITS {
      MaskRuns(f.mask, p, r);
      RunCons(Stmt(ALU + AND + K, f.mask), [], p, r);
      assert FieldMask(f) == [Stmt(ALU + AND + K, f.mask)] + [];
    }
    NothingRuns(p, r.(a := Masked(r.a, f.mask)));
  }

  lemma MaskRuns(mask: Word, p: Packet, r: Regs)
    ensures var s := Stmt(ALU + AND + K, mask);
      StmtOk(s) && Safe(s) && RunStmt(s, p, r) == Next(r.(a := BitAnd(r.a, mask)))
  {
    assert Decode(ALU + AND + K) == AluK(And);
    hide Decode, BitAnd;
  }

  lemma NothingRuns(p: Packet, r: Regs)
    ensures RunStmts([], p, r) == Next(r)
  {
  }

  lemma FieldTaken(f: Field, r: Regs)
    ensures IsBranch(FieldBranch(f)) && Taken(FieldBranch(f), r) == Test(f.cmp, r.a, f.value)
  {
    FieldDecodes(f);
    hide Decode;
  }

  /** The code of a check answers what the check means, from whatever registers. */
  lemma {:induction false} CheckTested(t: Tree<Field>, p: Packet, r: Regs)
    ensures Agree(Eval(Evaluator(p), CheckCode(t), r), Eval(FieldJudge(p), t, ()))
  {
    hide FieldTest, FieldOutcome, EvalTest;
    match t
    case Prim(f) =>
      FieldTested(f, p, r);
    case Not(u) =>
      CheckTested(u, p, r);
    case Op(or, u, v) =>
      CheckTested(u, p, r);
      var o := Eval(Evaluator(p), CheckCode(u), r);
      if o.Answer? {
        assert Eval(FieldJudge(p), u, ()).r == ();
        CheckTested(v, p, o.r);
      }
  }

  lemma {:induction false} CheckOk(t: Tree<Field>)
    ensures Size(CheckCode(t)) == Size(t)
    ensures forall i :: 0 <= i < Size(t) ==> TestOk(Tests(CheckCode(t))[i]) && StmtsOk(Tests(CheckCode(t))[i].stmts)
    ensures forall i :: 0 <= i < Size(t) ==> |Tests(CheckCode(t))[i].stmts| <= 2
  {
    hide TestOk, StmtsOk, FieldTest;
    match t
    case Prim(f) => FieldOk(f);
    case Not(u) => CheckOk(u);
    case Op(_, u, v) => CheckOk(u); CheckOk(v);
  }

  lemma BothCoded(a: Option<Tree<Field>>, b: Option<Tree<Field>>)
    ensures CodeOf(Both(a, b)) == Both(CodeOf(a), CodeOf(b))
  {
  }

  // ----- how many slots tests take -----

  function StmtTotal(tests: seq<TestCode>): nat {
    if tests == [] then 0 else StmtTotal(tests[..|tests| - 1]) + |tests[|tests| - 1].stmts| + 3
  }

  lemma {:induction false} StmtTotalAppend(s: seq<TestCode>, t: seq<TestCode>)
    ensures StmtTotal(s + t) == StmtTotal(s) + StmtTotal(t)
  {
    if t == [] {
      assert s + t == s;
    } else {
      assert (s + t)[..|s + t| - 1] == s + t[..|t| - 1];
      StmtTotalAppend(s, t[..|t| - 1]);
    }
  }

  lemma OneTotal(c: TestCode)
    ensures StmtTotal([c]) == |c.stmts| + 3
  {
    assert [c][..0] == [] && StmtTotal([]) == 0;
  }

  lemma {:induction false} CheckTotal(t: Tree<Field>)
    ensures StmtTotal(Tests(CheckCode(t))) <= 5 * Size(t)
  {
    hide StmtTotal, FieldTest;
    match t
    case Prim(f) =>
      FieldOk(f);
      OneTotal(FieldTest(f));
    case Not(u) =>
      CheckTotal(u);
    case Op(_, u, v) =>
      CheckTotal(u);
      CheckTotal(v);
      StmtTotalAppend(Tests(CheckCode(u)), Tests(CheckCode(v)));
  }
}
