/**
 The whole path from a filter expression to a program that the interpreter runs, as
 pcap_compile takes it with the optimizer off: generate the blocks, close the graph, lay it
 out, validate it (deps/libpcap/gencode.c, optimize.c, bpf_filter.c; src/sniffer.c).
 */
module Compile {
  import opened Basics
  import opened Machine
  import opened Flow
  import opened BoolExpr
  import opened Backpatch
  import opened FilterGraph
  import opened Headers
  import opened Arith
  import opened Order
  import opened Layout
  import opened LayoutPass
  import opened LayoutValid
  import Validator

  // ----- what a filter means, without any machine -----

  function Judgement(p: Packet): (Relation, ()) -> Outcome<()> {
    (rel: Relation, u: ()) => Judge(rel, p)
  }

  /** A packet matches when short-circuit evaluation of the relations says so; a relation with
      an operand outside the packet or a zero divisor makes the whole filter say no. */
  predicate Matches(t: Tree<Relation>, p: Packet) {
    var o := Eval(Judgement(p), t, ());
    o.Answer? && o.yes
  }

  /** The generator has registers for every relation and refuses none of its divisors. */
  predicate Compilable(t: Tree<Relation>) {
    match t
    case Prim(rel) => RelationCompilable(rel)
    case Not(u) => Compilable(u)
    case Op(_, u, v) => Compilable(u) && Compilable(v)
  }

  /** An upper bound on the length of the program, but for the two returns. */
  function Slots(t: Tree<Relation>): nat {
    match t
    case Prim(rel) => RelationSlots(rel)
    case Not(u) => Slots(u)
    case Op(_, u, v) => Slots(u) + Slots(v)
  }

  // ----- compiling the relations -----

  ghost predicate Implements(t': Tree<TestCode>, t: Tree<Relation>) {
    forall p: Packet, r: Regs :: Agree(Eval(Evaluator(p), t', r), Eval(Judgement(p), t, ()))
  }

  ghost predicate Translated(t': Tree<TestCode>, t: Tree<Relation>) {
    && Implements(t', t)
    && StmtTotal(BoolExpr.Tests(t')) <= Slots(t)
    && forall i :: 0 <= i < Size(t') ==> TestOk(BoolExpr.Tests(t')[i]) && StmtsOk(BoolExpr.Tests(t')[i].stmts)
  }

  lemma PrimTranslated(t': Tree<TestCode>, rel: Relation)
    requires Compares(t', rel)
    ensures Translated(t', Prim(rel))
  {
    hide Judge, StmtsOk, TestOk, RelationSlots;
    forall p: Packet, r: Regs
      ensures Agree(Eval(Evaluator(p), t', r), Eval(Judgement(p), Prim(rel), ()))
    {
      assert ComparesAt(t', rel, p, r);
    }
  }

  lemma NotTranslated(t': Tree<TestCode>, t: Tree<Relation>)
    requires Translated(t', t)
    ensures Translated(Not(t'), Not(t))
  {
    hide StmtsOk, TestOk;
    forall p: Packet, r: Regs
      ensures Agree(Eval(Evaluator(p), Not(t'), r), Eval(Judgement(p), Not(t), ()))
    {
      assert Agree(Eval(Evaluator(p), t', r), Eval(Judgement(p), t, ()));
    }
  }

  lemma OpTranslated(or: bool, t0': Tree<TestCode>, t0: Tree<Relation>, t1': Tree<TestCode>, t1: Tree<Relation>)
    requires Translated(t0', t0) && Translated(t1', t1)
    ensures Translated(Op(or, t0', t1'), Op(or, t0, t1))
  {
    hide StmtsOk, TestOk, StmtTotal;
    var t', t := Op(or, t0', t1'), Op(or, t0, t1);
    forall p: Packet, r: Regs
      ensures Agree(Eval(Evaluator(p), t', r), Eval(Judgement(p), t, ()))
    {
      var o := Eval(Evaluator(p), t0', r);
      var o' := Eval(Judgement(p), t0, ());
      assert Agree(o, o');
      if o.Answer? && o.yes != or {
        assert o'.r == ();
        assert Agree(Eval(Evaluator(p), t1', o.r), Eval(Judgement(p), t1, ()));
      }
    }
    StmtTotalAppend(BoolExpr.Tests(t0'), BoolExpr.Tests(t1'));
  }

  /** Compile every relation of an expression; fails exactly when one of them does. */
  method CompileRelations(gen: ArithGen, t: Tree<Relation>) returns (ok: bool, t': Tree<TestCode>)
    requires gen.Valid() && forall i :: 0 <= i < MEMWORDS ==> !gen.regused[i]
    modifies gen
    ensures gen.Valid()
    ensures ok <==> Compilable(t)
    ensures ok ==> forall i :: 0 <= i < MEMWORDS ==> !gen.regused[i]
    ensures ok ==> Translated(t', t)
    decreases t
  {
    hide Translated, Compares;
    match t {
      case Prim(rel) =>
        ok, t' := gen.GenRelation(rel);
        if ok { PrimTranslated(t', rel); }
      case Not(u) =>
        var u';
        ok, u' := CompileRelations(gen, u);
        t' := Not(u');
        if ok { NotTranslated(u', u); }
      case Op(or, u, v) =>
        var u', v';
        ok, u' := CompileRelations(gen, u);
        t' := u';
        if ok {
          ok, v' := CompileRelations(gen, v);
          t' := Op(or, u', v');
          if ok { OpTranslated(or, u', u, v', v); }
        }
    }
  }

  // ----- the finished graph fits, and its statements are safe -----

  lemma {:induction false} LiveNoLonger(ss: seq<Stmt>)
    ensures |Live(ss)| <= |ss|
  {
    if ss != [] { LiveNoLonger(ss[1..]); }
  }

  lemma {:induction false} TestSlots(g: Graph, t: Tree<TestCode>, ns: seq<int>, y: int, n: int, i: nat)
    requires Closed(g, t, ns, y, n) && i <= |ns|
    ensures Sum(ns[..i], MaxSizes(g)) <= StmtTotal(BoolExpr.Tests(t)[..i])
    decreases i
  {
    var tests := BoolExpr.Tests(t);
    if i > 0 {
      TestSlots(g, t, ns, y, n, i - 1);
      SumNext(ns, i - 1, MaxSizes(g));
      assert ClosedAt(g, t, ns, y, n, i - 1);
      LiveNoLonger(tests[i - 1].stmts);
      hide Live, BoolExpr.Tests, Shape;
      assert tests[..i][..i - 1] == tests[..i - 1];
    }
  }

  lemma DistinctIds(ns: seq<int>, y: int, n: int)
    requires Distinct(ns) && y !in ns && n !in ns && y != n
    ensures Distinct(ns + [y, n])
  {
  }

  /** The array for a filter is never longer than the relations allow. */
  lemma FilterFits(g: Graph, rank: map<int, nat>, t: Tree<TestCode>, ns: seq<int>, y: int, n: int, snaplen: Word,
      root: int)
    requires FilterGraph.Filter(g, t, ns, y, n, snaplen) && Ranked(g, rank) && root in rank
    requires rank == RankOf(ns + [y, n])
    ensures Sum(WalkOrder(g, rank, root), MaxSizes(g)) <= StmtTotal(BoolExpr.Tests(t)) + 6
  {
    hide Live, Ranked, Visit, WalkOrder, BoolExpr.Tests, Shape, MaxSizes, StmtTotal, TreeOk, Sum, Elems, Closed, RankOf;
    var ids, size, order := ns + [y, n], MaxSizes(g), WalkOrder(g, rank, root);
    RetSlots(g, y, snaplen);
    RetSlots(g, n, 0);
    WalkWithin(g, rank, root, ids);
    ClosedDistinct(g, t, ns, y, n);
    DistinctIds(ns, y, n);
    SumSubset(order, ids, size);
    assert ids == ns + [y] + [n];
    SumElems(ns + [y], n, size);
    SumElems(ns, y, size);
    TestSlots(g, t, ns, y, n, |ns|);
    assert ns[..|ns|] == ns && BoolExpr.Tests(t)[..|ns|] == BoolExpr.Tests(t);
  }

  lemma ClosedDistinct(g: Graph, t: Tree<TestCode>, ns: seq<int>, y: int, n: int)
    requires Closed(g, t, ns, y, n)
    ensures Distinct(ns) && |ns| == |BoolExpr.Tests(t)|
  {
  }

  lemma RetSlots(g: Graph, b: int, v: Word)
    requires 0 <= b < |g| && IsRet(g[b], v)
    ensures MaxSizes(g)(b) == 3
  {
  }

  lemma WalkWithin(g: Graph, rank: map<int, nat>, root: int, ids: seq<int>)
    requires Ranked(g, rank) && root in rank && rank == RankOf(ids)
    ensures var order := WalkOrder(g, rank, root); Distinct(order) && Elems(order) <= Elems(ids)
  {
    hide Visit, Ranked;
    WholeWalk(g, rank, root, true);
    FinishedDistinct(g, WalkOrder(g, rank, root));
  }

  lemma FinishedDistinct(g: Graph, order: seq<int>)
    requires Finished(g, order)
    ensures Distinct(order)
  {
  }

  lemma FilterIsSafe(g: Graph, t: Tree<TestCode>, ns: seq<int>, y: int, n: int, snaplen: Word, b: int)
    requires FilterGraph.Filter(g, t, ns, y, n, snaplen) && b in ns + [y, n]
    requires forall i :: 0 <= i < Size(t) ==> StmtsOk(BoolExpr.Tests(t)[i].stmts)
    ensures 0 <= b < |g| && SafeBlock(g[b])
  {
    hide StmtOk, Safe, BoolExpr.Tests, Shape, TestOk;
    if b in ns {
      var i :| 0 <= i < |ns| && ns[i] == b;
      assert ClosedAt(g, t, ns, y, n, i);
      assert StmtsOk(BoolExpr.Tests(t)[i].stmts);
    }
  }

  lemma FilterBlocksGood(g: Graph, rank: map<int, nat>, t: Tree<TestCode>, ns: seq<int>, y: int, n: int,
      snaplen: Word, root: int)
    requires FilterGraph.Filter(g, t, ns, y, n, snaplen) && Ranked(g, rank) && root in rank
    requires rank == RankOf(ns + [y, n])
    requires forall i :: 0 <= i < Size(t) ==> StmtsOk(BoolExpr.Tests(t)[i].stmts)
    ensures GoodBlocks(g, WalkOrder(g, rank, root))
  {
    var order := WalkOrder(g, rank, root);
    WalkOrderClosed(g, rank, root);
    hide Visit, BlockOk, SafeBlock, FilterGraph.Filter, StmtsOk, BoolExpr.Tests;
    forall i | 0 <= i < |order|
      ensures 0 <= order[i] < |g| && BlockOk(g[order[i]]) && SafeBlock(g[order[i]])
    {
      FilterIsSafe(g, t, ns, y, n, snaplen, order[i]);
    }
  }

  /** The whole compiler: compilation fails exactly when a relation needs more registers than
      there are or starts a divisor with the constant 0; otherwise the program is valid and
      the interpreter returns the snapshot length for the packets that match and 0 for all
      others, whatever the scratch memory holds. */
  method CompileFilter(t: Tree<Relation>, snaplen: Word) returns (ok: bool, prog: seq<Insn>)
    requires Slots(t) + 6 < 0x8000_0000
    ensures ok <==> Compilable(t)
    ensures ok ==> Validator.Valid(prog)
    ensures ok ==> forall p: Packet, r: Regs ::
      Steps(prog, p, At(0, r), |prog|) == Done(if Matches(t, p) then snaplen else 0)
  {
    prog := [];
    var regs := new ArithGen();
    var t';
    ok, t' := CompileRelations(regs, t);
    if !ok { return; }
    TranslatedParts(t', t);
    hide Translated, FilterGraph.Filter, Ranked, TreeOk, Sum, StmtTotal, StmtsOk, RankOf, Run, Validator.Valid, Step;
    var gen := new CodeGen();
    ghost var ns, y, n;
    var root;
    root, ns, y, n := CompilePlain(gen, t', snaplen);
    ghost var rank := RankOf(ns + [y, n]);
    FilterFits(gen.blocks, rank, t', ns, y, n, snaplen, root);
    FilterBlocksGood(gen.blocks, rank, t', ns, y, n, snaplen, root);
    prog := LayOut(gen.blocks, root, rank);
    forall p: Packet, r: Regs
      ensures Steps(prog, p, At(0, r), |prog|) == Done(if Matches(t, p) then snaplen else 0)
    {
      assert Agree(Eval(Evaluator(p), t', r), Eval(Judgement(p), t, ()));
      assert Run(gen.blocks, rank, p, root, r) == VerdictOf(Eval(Evaluator(p), t', r), snaplen);
    }
  }

  /** Lay out a graph of safe statements: the program is valid and computes what the graph does. */
  method LayOut(g: Graph, root: int, ghost rank: map<int, nat>) returns (prog: seq<Insn>)
    requires Ranked(g, rank) && root in rank && GoodBlocks(g, WalkOrder(g, rank, root))
    requires Sum(WalkOrder(g, rank, root), MaxSizes(g)) < 0x8000_0000
    ensures Validator.Valid(prog)
    ensures forall p: Packet, r: Regs :: Steps(prog, p, At(0, r), |prog|) == ConfigOf(Run(g, rank, p, root, r))
  {
    hide Ranked, Sum, Run, Validator.Valid, Step, WalkOrder, GoodBlocks, MaxSizes, AllPlaced, Finished, Justified;
    var cv := new Converter(g, root, rank);
    ghost var order;
    var passes;
    order, passes := cv.IcodeToFcode();
    prog := cv.fp[..];
    forall p: Packet, r: Regs
      ensures Validator.Valid(prog) && Steps(prog, p, At(0, r), |prog|) == ConfigOf(Run(g, rank, p, root, r))
    {
      LayoutComputes(prog, g, rank, root, cv.fl, cv.offset, order, p, r);
    }
    var any := PacketData([], 0);
    LayoutComputes(prog, g, rank, root, cv.fl, cv.offset, order, any, RegFile(0, 0, seq(MEMWORDS, _ => 0)));
  }

  lemma TranslatedParts(t': Tree<TestCode>, t: Tree<Relation>)
    requires Translated(t', t)
    ensures TreeOk(t') && Implements(t', t) && StmtTotal(BoolExpr.Tests(t')) <= Slots(t)
    ensures forall i :: 0 <= i < Size(t') ==> StmtsOk(BoolExpr.Tests(t')[i].stmts)
  {
  }
}
