/**
 The graph that the code generator closes computes its filter expression.
 */
module FilterGraph {
  import opened Basics
  import opened Machine
  import opened Flow
  import opened BoolExpr
  import opened Backpatch

  predicate TestOk(c: TestCode) { (forall s :: s in c.stmts ==> StmtOk(s)) && IsBranch(c.br) }

  predicate TreeOk(t: Tree<TestCode>) { forall i :: 0 <= i < Size(t) ==> TestOk(Tests(t)[i]) }

  function EvalTest(c: TestCode, p: Packet, r: Regs): Outcome<Regs> {
    if !TestOk(c) then Faults
    else
      match RunStmts(c.stmts, p, r)
      case Reject => Rejects
      case Fault => Faults
      case Next(r') => Answer(Taken(c.br, r'), r')
  }

  /** How a test acts on the machine for a given packet. */
  function Evaluator(p: Packet): (TestCode, Regs) -> Outcome<Regs> {
    (c: TestCode, r: Regs) => EvalTest(c, p, r)
  }

  /** What the filter returns for an outcome of its expression. */
  function VerdictOf(o: Outcome<Regs>, snaplen: Word): Verdict {
    match o
    case Answer(yes, _) => Returned(if yes then snaplen else 0)
    case Rejects => Rejected
    case Faults => Failed
  }

  // ----- a closed expression is acyclic -----

  ghost function IndexOf(ids: seq<int>, b: int): (i: nat)
    requires b in ids
    ensures i < |ids| && ids[i] == b
  {
    if ids[0] == b then 0 else 1 + IndexOf(ids[1..], b)
  }

  /** Number the blocks from the last to the first. */
  ghost function RankOf(ids: seq<int>): (rank: map<int, nat>)
    ensures Distinct(ids) ==> forall i :: 0 <= i < |ids| ==> ids[i] in rank && rank[ids[i]] == |ids| - i
    ensures forall b :: b in rank ==> b in ids
  {
    map b | b in ids :: |ids| - IndexOf(ids, b)
  }

  /** The closed graph with its two return blocks. */
  ghost predicate Filter(g: Graph, t: Tree<TestCode>, ns: seq<int>, y: int, n: int, snaplen: Word) {
    && Closed(g, t, ns, y, n) && TreeOk(t)
    && 0 <= y < |g| && 0 <= n < |g| && y != n && y !in ns && n !in ns
    && IsRet(g[y], snaplen) && IsRet(g[n], 0)
  }

  lemma RetIsBlock(b: Block, v: Word)
    requires IsRet(b, v)
    ensures BlockOk(b) && Leaf(b)
  {
  }

  ghost predicate RankedAt(g: Graph, rank: map<int, nat>, b: int)
    requires b in rank
  {
    && 0 <= b < |g| && BlockOk(g[b])
    && (!Leaf(g[b]) ==> g[b].jt in rank && rank[g[b].jt] < rank[b] && g[b].jf in rank && rank[g[b].jf] < rank[b])
  }

  lemma TestIsRanked(g: Graph, t: Tree<TestCode>, ns: seq<int>, y: int, n: int, i: nat)
    requires Closed(g, t, ns, y, n) && TreeOk(t) && Distinct(ns + [y, n]) && i < |ns| && y >= 0 && n >= 0
    ensures ns[i] in RankOf(ns + [y, n]) && RankedAt(g, RankOf(ns + [y, n]), ns[i])
  {
    hide IsBranch, Tests, Shape, StmtOk, RankOf, GoodShape, Target;
    var ids := ns + [y, n];
    assert ids[i] == ns[i];
    assert ClosedAt(g, t, ns, y, n, i) && TestOk(Tests(t)[i]);
    assert RankOf(ids)[ids[i]] == |ids| - i;
    TargetRank(Shape(t), ns, y, n, Shape(t)[i].jt, i);
    TargetRank(Shape(t), ns, y, n, Shape(t)[i].jf, i);
  }

  lemma ReturnIsRanked(g: Graph, ids: seq<int>, i: nat, v: Word)
    requires Distinct(ids) && i < |ids| && 0 <= ids[i] < |g| && IsRet(g[ids[i]], v)
    ensures ids[i] in RankOf(ids) && RankedAt(g, RankOf(ids), ids[i])
  {
    hide BlockOk, RankOf, IsRet;
    RetIsBlock(g[ids[i]], v);
  }

  lemma FilterIsRanked(g: Graph, t: Tree<TestCode>, ns: seq<int>, y: int, n: int, snaplen: Word)
    requires Filter(g, t, ns, y, n, snaplen)
    ensures Ranked(g, RankOf(ns + [y, n]))
    ensures forall i :: 0 <= i < |ns| ==> ns[i] in RankOf(ns + [y, n])
  {
    hide Shape, Tests, BlockOk, IsRet, TreeOk, RankOf, RankedAt;
    var ids := ns + [y, n];
    assert Distinct(ids);
    forall i | 0 <= i < |ids|
      ensures ids[i] in RankOf(ids) && RankedAt(g, RankOf(ids), ids[i])
    {
      if i < |ns| {
        TestIsRanked(g, t, ns, y, n, i);
      } else {
        ReturnIsRanked(g, ids, i, if i == |ns| then snaplen else 0);
      }
    }
    forall i | 0 <= i < |ns| ensures ns[i] in RankOf(ids) { assert ids[i] == ns[i]; }
    AllRanked(g, ids);
  }

  lemma AllRanked(g: Graph, ids: seq<int>)
    requires forall i :: 0 <= i < |ids| ==> ids[i] in RankOf(ids) && RankedAt(g, RankOf(ids), ids[i])
    ensures Ranked(g, RankOf(ids))
  {
    hide BlockOk, RankOf;
    forall b | b in RankOf(ids) ensures RankedAt(g, RankOf(ids), b) {
      var i :| 0 <= i < |ids| && ids[i] == b;
    }
  }

  /** Every exit leads to a block of the graph that is numbered lower. */
  lemma TargetRank(s: seq<Links>, ns: seq<int>, y: int, n: int, e: Exit, i: nat)
    requires |s| == |ns| && i < |ns| && Distinct(ns + [y, n]) && GoodShape(s)
    requires e == s[i].jt || e == s[i].jf
    ensures Target(e, ns, y, n) in RankOf(ns + [y, n])
    ensures RankOf(ns + [y, n])[Target(e, ns, y, n)] < |ns| + 2 - i
  {
    var ids := ns + [y, n];
    var j := if e.To? then e.pos else if e.yes then |ns| else |ns| + 1;
    assert ids[j] == Target(e, ns, y, n);
  }

  // ----- and it computes the expression -----

  lemma RetRuns(g: Graph, rank: map<int, nat>, p: Packet, b: int, v: Word, r: Regs)
    requires Ranked(g, rank) && b in rank && IsRet(g[b], v)
    ensures Run(g, rank, p, b, r) == Returned(v)
  {
  }

  lemma {:induction false} FilterFollowsShape(g: Graph, rank: map<int, nat>, t: Tree<TestCode>, ns: seq<int>, y: int,
      n: int, snaplen: Word, i: nat, p: Packet, r: Regs)
    requires Filter(g, t, ns, y, n, snaplen) && i < |ns|
    requires Ranked(g, rank) && ns[i] in rank
    ensures Run(g, rank, p, ns[i], r) == VerdictOf(RunShape(Evaluator(p), Tests(t), Shape(t), i, r), snaplen)
    decreases |ns| - i
  {
    hide StmtOk, IsBranch, Taken, ReturnValue, Shape, Tests, RunStmts;
    assert ClosedAt(g, t, ns, y, n, i) && TestOk(Tests(t)[i]);
    var o := EvalTest(Tests(t)[i], p, r);
    if o.Answer? {
      var e := if o.yes then Shape(t)[i].jt else Shape(t)[i].jf;
      match e {
        case To(j) => FilterFollowsShape(g, rank, t, ns, y, n, snaplen, j, p, o.r);
        case Out(v) => RetRuns(g, rank, p, if v then y else n, if v then snaplen else 0, o.r);
      }
    }
  }

  /** The main result of backpatching: the closed graph returns the snapshot length exactly
      when short-circuit evaluation of the expression is true, and 0 when it is false or a
      test rejects the packet, also under "not". */
  lemma FilterComputes(g: Graph, rank: map<int, nat>, t: Tree<TestCode>, ns: seq<int>, y: int, n: int, snaplen: Word,
      p: Packet, r: Regs)
    requires Filter(g, t, ns, y, n, snaplen) && Ranked(g, rank) && ns[0] in rank
    ensures Run(g, rank, p, ns[0], r) == VerdictOf(Eval(Evaluator(p), t, r), snaplen)
  {
    FilterFollowsShape(g, rank, t, ns, y, n, snaplen, 0, p, r);
    ShapeComputesTree(Evaluator(p), t, r);
  }

  // ----- the prologue and the check -----

  /** Statements in front of the first test run once, before everything else. */
  lemma {:induction false} PrologueRunsFirst(t: Tree<TestCode>, pre: seq<Stmt>, p: Packet, r: Regs)
    requires TreeOk(t) && forall s :: s in pre ==> StmtOk(s)
    ensures Eval(Evaluator(p), Prefixed(t, pre), r) == After(RunStmts(pre, p, r), Evaluator(p), t)
  {
    hide StmtOk, IsBranch, Taken;
    match t
    case Prim(c) =>
      assert TestOk(Tests(t)[0]);
      RunStmtsAppend(pre, c.stmts, p, r);
    case Not(u) =>
      assert Tests(t) == Tests(u);
      PrologueRunsFirst(u, pre, p, r);
    case Op(or, u, v) =>
      LeftOk(or, u, v);
      PrologueRunsFirst(u, pre, p, r);
  }

  /** Going on with an expression after some statements. */
  function After(e: Effect, ev: (TestCode, Regs) -> Outcome<Regs>, t: Tree<TestCode>): Outcome<Regs> {
    match e
    case Reject => Rejects
    case Fault => Faults
    case Next(r) => Eval(ev, t, r)
  }

  lemma LeftOk(or: bool, u: Tree<TestCode>, v: Tree<TestCode>)
    requires TreeOk(Op(or, u, v))
    ensures TreeOk(u)
  {
    hide TestOk;
    forall i | 0 <= i < Size(u) ensures TestOk(Tests(u)[i]) { assert Tests(u)[i] == Tests(Op(or, u, v))[i]; }
  }

  lemma WholeOk(t: Tree<TestCode>, pre: seq<Stmt>, check: Option<TestCode>)
    requires TreeOk(t) && (forall s :: s in pre ==> StmtOk(s)) && (check.Some? ==> TestOk(check.value))
    ensures TreeOk(Whole(t, pre, check))
  {
    hide StmtOk, IsBranch;
    PrefixedParts(t, pre);
    var u := Prefixed(t, pre);
    forall i | 0 <= i < Size(u) ensures TestOk(Tests(u)[i]) {
      assert TestOk(Tests(t)[i]);
    }
    if check.Some? {
      assert Tests(Whole(t, pre, check)) == [check.value] + Tests(u);
    }
  }

  /** What a whole filter decides: the check first, then the prologue once, then the expression. */
  lemma WholeMeans(t: Tree<TestCode>, pre: seq<Stmt>, check: Option<TestCode>, p: Packet, r: Regs)
    requires TreeOk(t) && forall s :: s in pre ==> StmtOk(s)
    ensures Eval(Evaluator(p), Whole(t, pre, check), r) ==
      var o := if check.Some? then EvalTest(check.value, p, r) else Answer(true, r);
      if o.Answer? && o.yes then After(RunStmts(pre, p, o.r), Evaluator(p), t) else o
  {
    hide TreeOk, Prefixed, StmtOk;
    var o := if check.Some? then EvalTest(check.value, p, r) else Answer(true, r);
    if o.Answer? { PrologueRunsFirst(t, pre, p, o.r); }
  }

  /** Parse and close a whole filter. */
  method CompileTree(gen: CodeGen, t: Tree<TestCode>, pre: seq<Stmt>, check: Option<TestCode>, snaplen: Word)
      returns (root: int, ghost ns: seq<int>, ghost y: int, ghost n: int)
    requires TreeOk(t) && (forall s :: s in pre ==> StmtOk(s)) && (check.Some? ==> TestOk(check.value))
    modifies gen
    ensures var w := Whole(t, pre, check);
      Filter(gen.blocks, w, ns, y, n, snaplen) && root == ns[0]
    ensures var rank, w := RankOf(ns + [y, n]), Whole(t, pre, check);
      && Ranked(gen.blocks, rank) && root in rank
      && forall p: Packet, r: Regs :: Run(gen.blocks, rank, p, root, r) == VerdictOf(Eval(Evaluator(p), w, r), snaplen)
  {
    hide Fragment, Closed, TreeOk, TestOk, StmtOk, Run, Ranked, Whole;
    var b;
    b, ns := gen.GenTree(t);
    FragmentIndices(gen.blocks, t, ns, b);
    WholeOk(t, pre, check);
    ghost var w := Whole(t, pre, check);
    root, ns, y, n := gen.FinishParse(pre, check, b, snaplen, t, ns);
    ClosedSize(gen.blocks, w, ns, y, n);
    assert Filter(gen.blocks, w, ns, y, n, snaplen);
    FilterIsRanked(gen.blocks, w, ns, y, n, snaplen);
    ghost var rank := RankOf(ns + [y, n]);
    forall p: Packet, r: Regs
      ensures Run(gen.blocks, rank, p, root, r) == VerdictOf(Eval(Evaluator(p), w, r), snaplen)
    {
      FilterComputes(gen.blocks, rank, w, ns, y, n, snaplen, p, r);
    }
  }

  /** The same for a link header of fixed length, which needs neither prologue nor check. */
  method CompilePlain(gen: CodeGen, t: Tree<TestCode>, snaplen: Word)
      returns (root: int, ghost ns: seq<int>, ghost y: int, ghost n: int)
    requires TreeOk(t)
    modifies gen
    ensures Filter(gen.blocks, t, ns, y, n, snaplen) && root == ns[0]
    ensures var rank := RankOf(ns + [y, n]);
      && Ranked(gen.blocks, rank) && root in rank
      && forall p: Packet, r: Regs :: Run(gen.blocks, rank, p, root, r) == VerdictOf(Eval(Evaluator(p), t, r), snaplen)
  {
    hide Filter, TreeOk, Run, Ranked, Whole;
    WholeOfNothing(t);
    root, ns, y, n := CompileTree(gen, t, [], None, snaplen);
  }

  lemma ClosedSize(g: Graph, t: Tree<TestCode>, ns: seq<int>, y: int, n: int)
    requires Closed(g, t, ns, y, n)
    ensures |ns| > 0
  {
  }
}
