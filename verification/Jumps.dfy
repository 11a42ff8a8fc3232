/**
 Jump folding: use_conflict, fold_edge and opt_j of deps/libpcap/optimize.c, and the level
 loop that applies opt_j to every edge.  An edge whose successor repeats a test that was
 decided further up is redirected to the successor's own successor.
 */
module Jumps {
  import opened Machine
  import opened Flow
  import opened Liveness
  import opened Dominance
  import opened Dominators
  import opened Traces
  import opened WordLaws

  // ----- value numbers -----

  /** The value number of each atom at the end of each block, and of each test's operand. */
  datatype Numbers = Numbers(val: seq<seq<int>>, oval: seq<int>)

  predicate Sized(g: Graph, nums: Numbers) {
    && |nums.val| == |nums.oval| == |g|
    && forall b :: 0 <= b < |g| ==> |nums.val[b]| == N_ATOMS
  }

  function Operand(br: Stmt, r: Regs): Word {
    if Decode(br.code).JmpX? then r.x else br.k
  }

  /** What the numbers of a block stand for on this packet. */
  ghost predicate ExplainsBlock(b: Block, aval: int, oval: int, p: Packet, m: map<int, Word>) {
    !Leaf(b) && Smooth(b, p) ==>
      var r := RunStmts(b.stmts, p, Zero).r;
      aval in m && r.a == m[aval] && oval in m && Operand(b.br, r) == m[oval]
  }

  /** Equal numbers stand for equal values: one value per number explains all blocks. */
  ghost predicate Known(g: Graph, rank: map<int, nat>, nums: Numbers, p: Packet)
    requires Sized(g, nums)
  {
    exists m: map<int, Word> :: Explains(g, rank, nums, p, m)
  }

  ghost predicate Explains(g: Graph, rank: map<int, nat>, nums: Numbers, p: Packet, m: map<int, Word>)
    requires Sized(g, nums)
  {
    forall b :: b in rank && 0 <= b < |g| ==> ExplainsBlock(g[b], nums.val[b][A_ATOM], nums.oval[b], p, m)
  }

  const JEQ_K := JMP + JEQ + K

  /** A constant has one number. */
  ghost predicate ConstantsNumbered(g: Graph, rank: map<int, nat>, nums: Numbers)
    requires Sized(g, nums)
  {
    forall b, c :: b in rank && c in rank && 0 <= b < |g| && 0 <= c < |g| ==>
      (g[b].br.code == JEQ_K && g[c].br.code == JEQ_K && g[b].br.k == g[c].br.k ==> nums.oval[b] == nums.oval[c])
  }

  // ----- folding one edge -----

  /** The code that opt_blk stores in an edge: negated for the false edge. */
  function EdgeCode(g: Graph, e: int): int
    requires 0 <= e < 2 * |g|
  {
    if e < |g| then g[e].br.code else -g[e - |g|].br.code
  }

  /** The successor of child that edge e decides, or NULL. */
  function FoldEdge(g: Graph, nums: Numbers, child: int, e: int): int
    requires Sized(g, nums) && 0 <= child < |g| && 0 <= e < 2 * |g|
  {
    var sense := EdgeCode(g, e) >= 0;
    var code := if sense then EdgeCode(g, e) else -EdgeCode(g, e);
    var pred := Pred(g, e);
    if g[child].br.code != code then NULL
    else if nums.val[child][A_ATOM] != nums.val[pred][A_ATOM] then NULL
    else if nums.oval[child] == nums.oval[pred] then (if sense then g[child].jt else g[child].jf)
    else if sense && code == JEQ_K then g[child].jf
    else NULL
  }

  /** When an edge must be folded: the child repeats the test, on the same accumulator, and either
      with the same operand or behind a successful comparison with another constant.  Then the
      answer is the branch of this side, or the false one. */
  lemma FoldsExactly(g: Graph, nums: Numbers, child: int, e: int)
    requires Sized(g, nums) && 0 <= child < |g| && 0 <= e < 2 * |g| && BlockOk(g[Pred(g, e)]) && !Leaf(g[Pred(g, e)])
    ensures var b, c, taken := g[Pred(g, e)], g[child], e < |g|;
      var repeats := c.br.code == b.br.code && nums.val[child][16] == nums.val[Pred(g, e)][16];
      var operand := nums.oval[child] == nums.oval[Pred(g, e)];
      FoldEdge(g, nums, child, e) ==
        if repeats && operand then (if taken then c.jt else c.jf)
        else if repeats && taken && b.br.code == 0x15 then c.jf
        else -1
  {
    BranchCode(g[Pred(g, e)]);
  }

  /** Nothing else can be decided: for every other kind and outcome of a test there are values for
      which the repeated test succeeds and values for which it fails.  Two constants with
      different numbers are different. */
  lemma NothingElseIsDecided(cmp: Cmp, taken: bool, constant: bool) returns (a: Word, x: Word, y: Word, z: Word)
    requires !(cmp.Eq? && taken && constant)
    ensures Test(cmp, a, x) == taken && Test(cmp, a, y) && !Test(cmp, a, z) && (constant ==> y != x && z != x)
  {
    hide BitAnd;
    LowestBit(1);
    LowestBit(2);
    LowestBit(3);
    LowestBit(4);
    match cmp
    case Eq => a, x, y, z := 1, if taken then 1 else 2, 1, 3;
    case Gt => a, x, y, z := 5, if taken then 1 else 6, 2, 7;
    case Ge => a, x, y, z := 5, if taken then 1 else 6, 2, 7;
    case Set => a, x, y, z := 1, if taken then 1 else 2, 3, 4;
  }

  lemma LowestBit(b: Word)
    ensures Test(Set, 1, b) <==> b % 2 == 1
  {
    TestLaws(1, b);
    BitZero(b);
    forall i | 0 <= i < 32 ensures Bit(1, i) <==> i == 0 {
      BitZero(1);
      if i > 0 {
        BitNext(1, i - 1);
        Bits0(i - 1);
      }
    }
  }

  lemma Bits0(i: nat)
    ensures !Bit(0, i)
  {
    HighBitsClear(0, i);
  }

  lemma BranchCode(b: Block)
    requires BlockOk(b) && !Leaf(b)
    ensures b.br.code > 0 && IsBranch(b.br)
    ensures b.br.code == JEQ_K ==> Decode(b.br.code) == JmpK(Eq)
  {
  }

  /** Two tests with the same code, accumulator and operand agree; after a successful
      comparison with a constant, comparison with another constant fails. */
  lemma SameTest(b: Block, c: Block, p: Packet)
    requires BlockOk(b) && BlockOk(c) && !Leaf(b) && !Leaf(c) && Smooth(b, p) && Smooth(c, p) && b.br.code == c.br.code
    requires RunStmts(b.stmts, p, Zero).r.a == RunStmts(c.stmts, p, Zero).r.a
    ensures Operand(b.br, RunStmts(b.stmts, p, Zero).r) == Operand(c.br, RunStmts(c.stmts, p, Zero).r) ==>
      Passes(b, p) == Passes(c, p)
    ensures b.br.code == JEQ_K && b.br.k != c.br.k && Passes(b, p) ==> !Passes(c, p)
  {
    BranchCode(b);
    hide Decode, RunStmts, BlockOk, StmtOk;
  }

  /** fold_edge's answer is the branch that a run which took edge e takes at the child. */
  lemma FoldSound(g: Graph, rank: map<int, nat>, nums: Numbers, p: Packet, child: int, e: int)
    requires Sized(g, nums) && Ranked(g, rank) && child in rank && 0 <= e < 2 * |g| && Pred(g, e) in rank
    requires Known(g, rank, nums, p) && ConstantsNumbered(g, rank, nums)
    requires Smooth(g[child], p) && Smooth(g[Pred(g, e)], p) && !Leaf(g[Pred(g, e)])
    requires Passes(g[Pred(g, e)], p) == (e < |g|)
    requires FoldEdge(g, nums, child, e) >= 0
    ensures !Leaf(g[child]) && FoldEdge(g, nums, child, e) == if Passes(g[child], p) then g[child].jt else g[child].jf
  {
    hide Decode, RunStmts, StmtOk, Smooth, Passes, IsBranch, IsReturn, Operand;
    var a := Pred(g, e);
    var m :| Explains(g, rank, nums, p, m);
    assert BlockOk(g[a]) && BlockOk(g[child]);
    assert ExplainsBlock(g[a], nums.val[a][A_ATOM], nums.oval[a], p, m);
    assert ExplainsBlock(g[child], nums.val[child][A_ATOM], nums.oval[child], p, m);
    BranchCode(g[a]);
    SmoothStmts(g[a], p);
    SmoothStmts(g[child], p);
    assert !Leaf(g[child]);
    SameTest(g[a], g[child], p);
  }

  lemma SmoothStmts(b: Block, p: Packet)
    requires Smooth(b, p)
    ensures (forall s :: s in b.stmts ==> StmtOk(s)) && RunStmts(b.stmts, p, Zero).Next?
  {
  }

  // ----- a run passes the edges that dominate its own -----

  ghost function TakenEdge(g: Graph, t: Tests, b: int): int
    requires 0 <= b < |g| == |t|
  {
    if t[b] then b else |g| + b
  }

  /** Every edge of q is one that the run takes. */
  ghost predicate TakenEdges(g: Graph, rank: map<int, nat>, t: Tests, root: int, q: seq<int>)
    requires Ranked(g, rank) && root in rank && |t| == |g|
  {
    forall k :: 0 <= k < |q| ==> EdgeTaken(g, rank, t, root, q[k])
  }

  ghost predicate EdgeTaken(g: Graph, rank: map<int, nat>, t: Tests, root: int, e: int)
    requires Ranked(g, rank) && root in rank && |t| == |g|
  {
    && 0 <= e < 2 * |g| && Pred(g, e) in Trace(g, rank, t, root)
    && !Leaf(g[Pred(g, e)]) && t[Pred(g, e)] == (e < |g|)
  }

  lemma NextOnTrace(g: Graph, rank: map<int, nat>, t: Tests, b: int, x: int)
    requires Ranked(g, rank) && |t| == |g| && b in rank && !Leaf(g[b])
    requires x in Trace(g, rank, t, b) && 0 <= x < |g| && !Leaf(g[x]) && x != b
    ensures var c := Goto(g, t, b);
      c in rank && 0 <= c < |g| && rank[c] < rank[b] && !Leaf(g[c]) && x in Trace(g, rank, t, c)
  {
    hide BlockOk;
    var c := Goto(g, t, b);
    assert Trace(g, rank, t, b) == [b] + Trace(g, rank, t, c);
    if Leaf(g[c]) { assert false; }
  }

  lemma TakenFollows(g: Graph, t: Tests, b: int, c: int)
    requires 0 <= b < |g| == |t| && !Leaf(g[b]) && c == Goto(g, t, b) && 0 <= c < |g|
    ensures |EdgeGraph(g)| == 2 * |g| && TakenEdge(g, t, c) in EdgeGraph(g)[TakenEdge(g, t, b)]
  {
    assert EdgeSucc(g, TakenEdge(g, t, b)) == c;
  }

  lemma {:induction false} EdgesOfTrace(g: Graph, rank: map<int, nat>, t: Tests, root: int, b: int, q: seq<int>, x: int)
      returns (q': seq<int>)
    requires Ranked(g, rank) && root in rank && |t| == |g| && b in Trace(g, rank, t, root) && b in rank && !Leaf(g[b])
    requires PathTo(EdgeGraph(g), RootEdges(g, root), q, TakenEdge(g, t, b)) && TakenEdges(g, rank, t, root, q)
    requires x in Trace(g, rank, t, b) && 0 <= x < |g| && !Leaf(g[x])
    ensures PathTo(EdgeGraph(g), RootEdges(g, root), q', TakenEdge(g, t, x)) && TakenEdges(g, rank, t, root, q')
    decreases rank[b]
  {
    hide BlockOk, PathTo, Trace, EdgeGraph, RootEdges, Ranked;
    if x == b { return q; }
    OnTrace(g, rank, t, root, b);
    var c := Goto(g, t, b);
    NextOnTrace(g, rank, t, b, x);
    TakenFollows(g, t, b, c);
    assert EdgeTaken(g, rank, t, root, TakenEdge(g, t, c));
    ExtendPath(EdgeGraph(g), RootEdges(g, root), q, TakenEdge(g, t, b), TakenEdge(g, t, c));
    q' := EdgesOfTrace(g, rank, t, root, c, q + [TakenEdge(g, t, c)], x);
  }

  /** A run that takes edge e has taken every edge that dominates e. */
  lemma DominatorsTaken(g: Graph, rank: map<int, nat>, t: Tests, root: int, e: int, d: int)
    requires Ranked(g, rank) && root in rank && |t| == |g| && EdgeTaken(g, rank, t, root, e)
    requires Dominates(EdgeGraph(g), RootEdges(g, root), d, e)
    ensures EdgeTaken(g, rank, t, root, d)
  {
    hide BlockOk;
    assert root in Trace(g, rank, t, root);
    var f := TakenEdge(g, t, root);
    assert !Leaf(g[root]);
    assert PathTo(EdgeGraph(g), RootEdges(g, root), [f], f);
    var q := EdgesOfTrace(g, rank, t, root, root, [f], Pred(g, e));
    assert d in q;
  }

  // ----- redirecting an edge -----

  function Redirect(g: Graph, e: int, target: int): (g': Graph)
    requires 0 <= e < 2 * |g|
    ensures |g'| == |g|
  {
    var b := Pred(g, e);
    g[b := if e < |g| then g[b].(jt := target) else g[b].(jf := target)]
  }

  /** The same blocks, with other jumps. */
  predicate SameBlocks(g: Graph, g': Graph) {
    && |g'| == |g|
    && forall b :: 0 <= b < |g| ==> g'[b] == g[b].(jt := g'[b].jt, jf := g'[b].jf) && (Leaf(g'[b]) <==> Leaf(g[b]))
  }

  lemma RedirectRanked(g: Graph, rank: map<int, nat>, e: int, target: int)
    requires Ranked(g, rank) && 0 <= e < 2 * |g| && Pred(g, e) in rank && !Leaf(g[Pred(g, e)])
    requires target in rank && rank[target] < rank[Pred(g, e)]
    ensures Ranked(Redirect(g, e, target), rank) && SameBlocks(g, Redirect(g, e, target))
  {
    hide IsBranch, IsReturn, StmtOk;
    assert 0 <= target < |g|;
  }

  lemma SameOutcomes(g: Graph, g': Graph, rank: map<int, nat>, nums: Numbers, p: Packet)
    requires SameBlocks(g, g') && Sized(g, nums) && Sized(g', nums) && forall b :: b in rank ==> 0 <= b < |g|
    ensures Outcomes(g', p) == Outcomes(g, p)
    ensures Known(g, rank, nums, p) ==> Known(g', rank, nums, p)
    ensures AllSelfContained(g, rank) ==> AllSelfContained(g', rank)
    ensures ConstantsNumbered(g, rank, nums) ==> ConstantsNumbered(g', rank, nums)
  {
    hide Decode, RunStmts, StmtOk, IsBranch, Operand, LiveBefore, BranchUses, AllGood, Taken;
    forall b | 0 <= b < |g| ensures Passes(g'[b], p) == Passes(g[b], p) && Smooth(g'[b], p) == Smooth(g[b], p) {}
    if Known(g, rank, nums, p) {
      var m :| Explains(g, rank, nums, p, m);
      forall b | b in rank && 0 <= b < |g'| ensures ExplainsBlock(g'[b], nums.val[b][A_ATOM], nums.oval[b], p, m) {
        assert ExplainsBlock(g[b], nums.val[b][A_ATOM], nums.oval[b], p, m);
      }
      assert Explains(g', rank, nums, p, m);
    }
  }

  /** A graph that gives the same result on every packet whose values the numbers explain and
      on which the original does not reject. */
  ghost predicate Preserves(g: Graph, g': Graph, rank: map<int, nat>, nums: Numbers, root: int)
    requires Ranked(g, rank) && Ranked(g', rank) && root in rank && Sized(g, nums)
  {
    forall p :: Known(g, rank, nums, p) && SmoothTrace(g, rank, p, root) ==> SameEnd(g, g', rank, root, p)
  }

  ghost predicate SameEnd(g: Graph, g': Graph, rank: map<int, nat>, root: int, p: Packet)
    requires Ranked(g, rank) && Ranked(g', rank) && root in rank
  {
    SmoothTrace(g', rank, p, root) && End(g', rank, Outcomes(g', p), root) == End(g, rank, Outcomes(g, p), root)
  }

  /** Moving an edge further down the path of the runs that take it changes no result. */
  lemma RedirectEnds(g: Graph, rank: map<int, nat>, nums: Numbers, root: int, e: int, target: int, p: Packet)
    requires Ranked(g, rank) && root in rank && 0 <= e < 2 * |g| && Pred(g, e) in rank && !Leaf(g[Pred(g, e)])
    requires target in rank && rank[target] < rank[Pred(g, e)] && Sized(g, nums) && SmoothTrace(g, rank, p, root)
    requires EdgeTaken(g, rank, Outcomes(g, p), root, e) ==> target in Trace(g, rank, Outcomes(g, p), root)
    ensures Ranked(Redirect(g, e, target), rank) && SameEnd(g, Redirect(g, e, target), rank, root, p)
  {
    hide Decode, RunStmts, StmtOk, IsBranch, Passes, Smooth, BlockOk, Outcomes, Known, Ranked, Trace, End,
      AllSelfContained, ConstantsNumbered, Sized;
    RedirectRanked(g, rank, e, target);
    RankKeys(g, rank, nums);
    var g', t := Redirect(g, e, target), Outcomes(g, p);
    SameOutcomes(g, g', rank, nums, p);
    assert |t| == |g| by { OutcomesSize(g, p); }
    forall x | x in Trace(g, rank, t, root)
      ensures x in rank && x < |g| && (!Leaf(g[x]) ==> (if t[x] then g'[x].jt else g'[x].jf) in Trace(g, rank, t, root))
    {
      OnTrace(g, rank, t, root, x);
    }
    assert Shortcuts(g, g', rank, rank, t, root);
    OnOwnTrace(g, rank, t, root);
    ShortcutEnds(g, g', rank, rank, t, t, root, root);
    forall x | x in Trace(g', rank, t, root) ensures 0 <= x < |g| && Smooth(g'[x], p) {
      assert Smooth(g[x], p);
      SameSmooth(g[x], g'[x], p);
    }
  }

  lemma OnOwnTrace(g: Graph, rank: map<int, nat>, t: Tests, b: int)
    requires Ranked(g, rank) && b in rank && |t| == |g|
    ensures b in Trace(g, rank, t, b)
  {
  }

  lemma OutcomesSize(g: Graph, p: Packet)
    ensures |Outcomes(g, p)| == |g| && forall b :: 0 <= b < |g| ==> Outcomes(g, p)[b] == Passes(g[b], p)
  {
  }

  lemma RankKeys(g: Graph, rank: map<int, nat>, nums: Numbers)
    requires Ranked(g, rank) && Sized(g, nums)
    ensures forall e, b :: 0 <= e < 2 * |g| ==> Sized(Redirect(g, e, b), nums)
    ensures forall b :: b in rank ==> 0 <= b < |g|
  {
  }

  lemma SameSmooth(b: Block, b': Block, p: Packet)
    requires Smooth(b, p) && b'.stmts == b.stmts
    ensures Smooth(b', p)
  {
  }

  /** Everything the pass relies on. */
  ghost predicate Tidy(g: Graph, rank: map<int, nat>, nums: Numbers, root: int) {
    && Ranked(g, rank) && root in rank && Sized(g, nums)
    && AllSelfContained(g, rank) && ConstantsNumbered(g, rank, nums)
  }

  ghost predicate InnerEdge(g: Graph, rank: map<int, nat>, e: int) {
    0 <= e < 2 * |g| && Pred(g, e) in rank && !Leaf(g[Pred(g, e)])
  }

  lemma EdgeFalls(g: Graph, rank: map<int, nat>, e: int)
    requires Ranked(g, rank) && InnerEdge(g, rank, e)
    ensures EdgeSucc(g, e) in rank && 0 <= EdgeSucc(g, e) < |g| && rank[EdgeSucc(g, e)] < rank[Pred(g, e)]
    ensures !Leaf(g[EdgeSucc(g, e)]) ==>
      var c := EdgeSucc(g, e);
      && g[c].jt in rank && 0 <= g[c].jt < |g| && rank[g[c].jt] < rank[c]
      && g[c].jf in rank && 0 <= g[c].jf < |g| && rank[g[c].jf] < rank[c]
    ensures Leaf(g[EdgeSucc(g, e)]) ==> g[EdgeSucc(g, e)].jf < 0
  {
  }

  /** The runs that take an edge go through its successor. */
  lemma SuccTaken(g: Graph, rank: map<int, nat>, t: Tests, root: int, e: int)
    requires Ranked(g, rank) && root in rank && |t| == |g| && EdgeTaken(g, rank, t, root, e)
    ensures EdgeSucc(g, e) in Trace(g, rank, t, root)
  {
    hide Ranked, Trace;
    OnTrace(g, rank, t, root, Pred(g, e));
  }

  /** Redirecting an edge to where its successor's test certainly leads. */
  lemma PromotePreserves(g: Graph, rank: map<int, nat>, nums: Numbers, root: int, e: int, target: int)
    requires Tidy(g, rank, nums, root) && InnerEdge(g, rank, e) && 0 <= EdgeSucc(g, e) < |g| && !Leaf(g[EdgeSucc(g, e)])
    requires target == g[EdgeSucc(g, e)].jt || target == g[EdgeSucc(g, e)].jf
    requires forall p ::
      Known(g, rank, nums, p) && SmoothTrace(g, rank, p, root) && EdgeTaken(g, rank, Outcomes(g, p), root, e) ==>
        target == Goto(g, Outcomes(g, p), EdgeSucc(g, e))
    ensures Tidy(Redirect(g, e, target), rank, nums, root) && SameBlocks(g, Redirect(g, e, target))
    ensures Preserves(g, Redirect(g, e, target), rank, nums, root)
  {
    hide Ranked, Sized, AllSelfContained, ConstantsNumbered, Known, SmoothTrace, EdgeTaken, Trace, Outcomes, Redirect,
      SameBlocks, SameEnd;
    EdgeFalls(g, rank, e);
    RedirectRanked(g, rank, e, target);
    RankKeys(g, rank, nums);
    var some: Packet := PacketData([], 0);
    SameOutcomes(g, Redirect(g, e, target), rank, nums, some);
    forall p | Known(g, rank, nums, p) && SmoothTrace(g, rank, p, root)
      ensures SameEnd(g, Redirect(g, e, target), rank, root, p)
    {
      var t := Outcomes(g, p);
      OutcomesSize(g, p);
      if EdgeTaken(g, rank, t, root, e) {
        SuccTaken(g, rank, t, root, e);
        OnTrace(g, rank, t, root, EdgeSucc(g, e));
      }
      RedirectEnds(g, rank, nums, root, e, target, p);
    }
  }

  /** Redirecting an edge as fold_edge says, for an edge d that dominates it. */
  lemma FoldPreserves(g: Graph, rank: map<int, nat>, nums: Numbers, root: int, e: int, d: int)
    requires Tidy(g, rank, nums, root) && InnerEdge(g, rank, e) && 0 <= EdgeSucc(g, e) < |g| && 0 <= d < 2 * |g|
    requires Dominates(EdgeGraph(g), RootEdges(g, root), d, e)
    requires FoldEdge(g, nums, EdgeSucc(g, e), d) >= 0
    ensures var target := FoldEdge(g, nums, EdgeSucc(g, e), d);
      && !Leaf(g[EdgeSucc(g, e)]) && target in rank && rank[target] < rank[EdgeSucc(g, e)]
      && Tidy(Redirect(g, e, target), rank, nums, root) && SameBlocks(g, Redirect(g, e, target))
      && Preserves(g, Redirect(g, e, target), rank, nums, root)
  {
    var child := EdgeSucc(g, e);
    var target := FoldEdge(g, nums, child, d);
    EdgeFalls(g, rank, e);
    assert target == g[child].jt || target == g[child].jf;
    hide Ranked, Sized, AllSelfContained, ConstantsNumbered, Known, Trace, Outcomes, Redirect, SameBlocks, FoldEdge,
      Dominates, EdgeGraph;
    forall p | Known(g, rank, nums, p) && SmoothTrace(g, rank, p, root) && EdgeTaken(g, rank, Outcomes(g, p), root, e)
      ensures target == Goto(g, Outcomes(g, p), child)
    {
      var t := Outcomes(g, p);
      OutcomesSize(g, p);
      DominatorsTaken(g, rank, t, root, e, d);
      SuccTaken(g, rank, t, root, e);
      OnTrace(g, rank, t, root, Pred(g, d));
      FoldSound(g, rank, nums, p, child, d);
    }
    PromotePreserves(g, rank, nums, root, e, target);
  }

  /** Redirecting an edge past a block both of whose branches lead to the same place. */
  lemma SkipPreserves(g: Graph, rank: map<int, nat>, nums: Numbers, root: int, e: int)
    requires Tidy(g, rank, nums, root) && InnerEdge(g, rank, e) && 0 <= EdgeSucc(g, e) < |g| && !Leaf(g[EdgeSucc(g, e)])
    requires g[EdgeSucc(g, e)].jt == g[EdgeSucc(g, e)].jf
    ensures var target := g[EdgeSucc(g, e)].jt;
      && target in rank && rank[target] < rank[EdgeSucc(g, e)]
      && Tidy(Redirect(g, e, target), rank, nums, root) && SameBlocks(g, Redirect(g, e, target))
      && Preserves(g, Redirect(g, e, target), rank, nums, root)
  {
    hide Ranked, Sized, AllSelfContained, ConstantsNumbered, Known, SmoothTrace, EdgeTaken, Trace, Redirect, SameBlocks;
    EdgeFalls(g, rank, e);
    PromotePreserves(g, rank, nums, root, e, g[EdgeSucc(g, e)].jt);
  }

  lemma PreservesTransitive(g0: Graph, g: Graph, g': Graph, rank: map<int, nat>, nums: Numbers, root: int)
    requires Tidy(g0, rank, nums, root) && Tidy(g, rank, nums, root) && Tidy(g', rank, nums, root) && SameBlocks(g0, g)
    requires SameBlocks(g, g')
    requires Preserves(g0, g, rank, nums, root) && Preserves(g, g', rank, nums, root)
    ensures Preserves(g0, g', rank, nums, root) && SameBlocks(g0, g')
  {
    hide Ranked, Sized, AllSelfContained, ConstantsNumbered, Known, SmoothTrace, Outcomes, End;
    RankKeys(g0, rank, nums);
    forall p | Known(g0, rank, nums, p) && SmoothTrace(g0, rank, p, root)
      ensures SameEnd(g0, g', rank, root, p)
    {
      SameOutcomes(g0, g, rank, nums, p);
      assert SameEnd(g0, g, rank, root, p);
      assert SameEnd(g, g', rank, root, p);
    }
  }

  // ----- the dominators of an edge do not depend on the edges below it -----

  /** Blocks above the level of block b are the same. */
  ghost predicate SameAbove(g: Graph, g': Graph, rank: map<int, nat>, l: nat) {
    |g'| == |g| && forall b :: b in rank && rank[b] > l && 0 <= b < |g| ==> g'[b] == g[b]
  }

  lemma {:induction false} SamePath(g: Graph, g': Graph, rank: map<int, nat>, root: int, q: seq<int>, e: int)
    requires Ranked(g, rank) && root in rank && 0 <= e < 2 * |g| == 2 * |g'|
    requires PathTo(EdgeGraph(g), RootEdges(g, root), q, e)
    requires Pred(g, e) in rank ==> SameAbove(g, g', rank, rank[Pred(g, e)])
    ensures Pred(g, e) in rank && PathTo(EdgeGraph(g'), RootEdges(g', root), q, e)
    decreases |q|
  {
    hide BlockOk;
    if |q| > 1 {
      var a := q[|q| - 2];
      ShortenPath(EdgeGraph(g), RootEdges(g, root), q, e);
      PathPredRanked(g, rank, root, q[..|q| - 1]);
      assert e in NextEdges(g, a);
      assert EdgeSucc(g, a) == Pred(g, e);
      assert rank[Pred(g, a)] > rank[Pred(g, e)];
      SamePath(g, g', rank, root, q[..|q| - 1], a);
      assert g'[Pred(g, a)] == g[Pred(g, a)];
      ExtendPath(EdgeGraph(g'), RootEdges(g', root), q[..|q| - 1], a, e);
      assert q == q[..|q| - 1] + [e];
    }
  }

  lemma {:induction false} PathPredRanked(g: Graph, rank: map<int, nat>, root: int, q: seq<int>)
    requires Ranked(g, rank) && root in rank && Path(EdgeGraph(g), RootEdges(g, root), q)
    ensures 0 <= q[|q| - 1] < 2 * |g| && Pred(g, q[|q| - 1]) in rank
    decreases |q|
  {
    hide BlockOk;
    if |q| > 1 {
      ShortenPath(EdgeGraph(g), RootEdges(g, root), q, q[|q| - 1]);
      PathPredRanked(g, rank, root, q[..|q| - 1]);
    }
  }

  /** While edges are redirected on lower levels only, or the edge itself is, the dominators
      of an edge stay what they were. */
  lemma DominatorsStable(g: Graph, g': Graph, rank: map<int, nat>, root: int, e: int, d: int)
    requires Ranked(g, rank) && Ranked(g', rank) && root in rank && 0 <= e < 2 * |g| && Pred(g, e) in rank
    requires SameAbove(g, g', rank, rank[Pred(g, e)])
    ensures Dominates(EdgeGraph(g'), RootEdges(g', root), d, e) <==> Dominates(EdgeGraph(g), RootEdges(g, root), d, e)
  {
    hide Ranked, EdgeGraph, RootEdges, PathTo;
    forall q
      ensures PathTo(EdgeGraph(g), RootEdges(g, root), q, e) <==> PathTo(EdgeGraph(g'), RootEdges(g', root), q, e)
    {
      if PathTo(EdgeGraph(g), RootEdges(g, root), q, e) { SamePath(g, g', rank, root, q, e); }
      if PathTo(EdgeGraph(g'), RootEdges(g', root), q, e) { SamePath(g', g, rank, root, q, e); }
    }
  }

  /** The dominator set of edge e is exact for graph g. */
  ghost predicate ExactEdom(g: Graph, root: int, edom: seq<set<int>>, e: int) {
    && |edom| == 2 * |g| && 0 <= e < 2 * |g|
    && forall d :: d in edom[e] <==> Dominates(EdgeGraph(g), RootEdges(g, root), d, e)
  }

  lemma ExactStable(g: Graph, g': Graph, rank: map<int, nat>, root: int, edom: seq<set<int>>, e: int)
    requires Ranked(g, rank) && Ranked(g', rank) && root in rank && InnerEdge(g, rank, e)
    requires SameAbove(g, g', rank, rank[Pred(g, e)]) && ExactEdom(g, root, edom, e)
    ensures ExactEdom(g', root, edom, e)
  {
    hide Ranked, EdgeGraph, RootEdges, Dominates;
    forall d ensures d in edom[e] <==> Dominates(EdgeGraph(g'), RootEdges(g', root), d, e) {
      DominatorsStable(g, g', rank, root, e, d);
    }
  }

  // ----- the pass -----

  /** Graph g came from g0 by moving edge e down. */
  ghost predicate Moving(g0: Graph, g: Graph, rank: map<int, nat>, nums: Numbers, root: int, edom: seq<set<int>>,
      e: int) {
    && Tidy(g0, rank, nums, root) && Tidy(g, rank, nums, root) && SameBlocks(g0, g)
    && InnerEdge(g0, rank, e) && InnerEdge(g, rank, e) && ExactEdom(g, root, edom, e)
    && Preserves(g0, g, rank, nums, root)
    && EdgeSucc(g0, e) in rank && EdgeSucc(g, e) in rank && g == Redirect(g0, e, EdgeSucc(g, e))
    && (g == g0 || rank[EdgeSucc(g, e)] < rank[EdgeSucc(g0, e)])
  }

  ghost function SuccRank(g: Graph, rank: map<int, nat>, e: int): nat {
    if 0 <= e < 2 * |g| && EdgeSucc(g, e) in rank then rank[EdgeSucc(g, e)] else 0
  }

  lemma Begin(g: Graph, rank: map<int, nat>, nums: Numbers, root: int, edom: seq<set<int>>, e: int)
    requires Tidy(g, rank, nums, root) && InnerEdge(g, rank, e) && ExactEdom(g, root, edom, e)
    ensures Moving(g, g, rank, nums, root, edom, e)
  {
    hide AllSelfContained, ConstantsNumbered, Sized, Known, SmoothTrace, BlockOk, ExactEdom, End, Outcomes, Trace, Leaf;
    EdgeFalls(g, rank, e);
    assert Preserves(g, g, rank, nums, root);
  }

  lemma MovingFacts(g0: Graph, g: Graph, rank: map<int, nat>, nums: Numbers, root: int, edom: seq<set<int>>, e: int)
    requires Moving(g0, g, rank, nums, root, edom, e)
    ensures Ranked(g0, rank) && Ranked(g, rank) && root in rank && Sized(g0, nums) && Sized(g, nums)
    ensures Tidy(g, rank, nums, root)
    ensures 0 <= e < 2 * |g| == 2 * |g0| == |edom| && InnerEdge(g, rank, e)
    ensures 0 <= EdgeSucc(g, e) < |g| && EdgeSucc(g, e) in rank
    ensures SameBlocks(g0, g) && Preserves(g0, g, rank, nums, root) && g == Redirect(g0, e, EdgeSucc(g, e))
    ensures EdgeSucc(g0, e) in rank && (g == g0 || rank[EdgeSucc(g, e)] < rank[EdgeSucc(g0, e)])
  {
    hide AllSelfContained, ConstantsNumbered, Ranked, Preserves, Redirect, EdgeGraph, RootEdges, Dominates, Leaf,
      InnerEdge;
    EdgeFalls(g, rank, e);
    assert 0 <= e < 2 * |g|;
  }

  lemma Moved(g0: Graph, g: Graph, rank: map<int, nat>, nums: Numbers, root: int, edom: seq<set<int>>, e: int,
      target: int)
    requires Moving(g0, g, rank, nums, root, edom, e) && target in rank && target >= 0
    requires rank[target] < SuccRank(g, rank, e)
    requires Tidy(Redirect(g, e, target), rank, nums, root) && SameBlocks(g, Redirect(g, e, target))
    requires Preserves(g, Redirect(g, e, target), rank, nums, root)
    ensures var g' := Redirect(g, e, target);
      Moving(g0, g', rank, nums, root, edom, e) && g' != g0 && SuccRank(g', rank, e) < SuccRank(g, rank, e)
        && EdgeSucc(g', e) == target
  {
    hide AllSelfContained, ConstantsNumbered, Known, SmoothTrace, ExactEdom, End, Outcomes, Trace, Preserves, Ranked,
      Sized;
    var g' := Redirect(g, e, target);
    PreservesTransitive(g0, g, g', rank, nums, root);
    ExactStable(g, g', rank, root, edom, e);
    assert EdgeSucc(g', e) == target;
    assert g' == Redirect(g0, e, target);
  }

  lemma FoldMoves(g0: Graph, g: Graph, rank: map<int, nat>, nums: Numbers, root: int, edom: seq<set<int>>, e: int,
      d: int)
    requires Moving(g0, g, rank, nums, root, edom, e) && 0 <= d < 2 * |g| && Sized(g, nums)
    requires 0 <= e < 2 * |g| == |edom| && d in edom[e]
    requires 0 <= EdgeSucc(g, e) < |g| && FoldEdge(g, nums, EdgeSucc(g, e), d) >= 0
    ensures var target := FoldEdge(g, nums, EdgeSucc(g, e), d);
      var g' := Redirect(g, e, target);
      && target < |g| && Moving(g0, g', rank, nums, root, edom, e) && g' != g0
        && SuccRank(g', rank, e) < SuccRank(g, rank, e)
      && EdgeSucc(g', e) == target && target in rank
  {
    hide Tidy, Preserves, SameBlocks, FoldEdge, Redirect, Dominates, EdgeGraph, RootEdges;
    FoldPreserves(g, rank, nums, root, e, d);
    var target := FoldEdge(g, nums, EdgeSucc(g, e), d);
    Moved(g0, g, rank, nums, root, edom, e, target);
    TidyKeys(g, rank, nums, root);
  }

  lemma SuccBranches(g0: Graph, g: Graph, rank: map<int, nat>, nums: Numbers, root: int, edom: seq<set<int>>, e: int)
    requires Moving(g0, g, rank, nums, root, edom, e)
    ensures 0 <= e < 2 * |g| && 0 <= EdgeSucc(g, e) < |g| && (!Leaf(g[EdgeSucc(g, e)]) ==> g[EdgeSucc(g, e)].jf >= 0)
  {
    hide Preserves, SameBlocks, Redirect, AllSelfContained, ConstantsNumbered, ExactEdom, Ranked;
    EdgeFalls(g, rank, e);
  }

  lemma SuccRankIs(g: Graph, rank: map<int, nat>, e: int)
    requires 0 <= e < 2 * |g| && EdgeSucc(g, e) in rank
    ensures SuccRank(g, rank, e) == rank[EdgeSucc(g, e)]
  {
  }

  lemma TidyKeys(g: Graph, rank: map<int, nat>, nums: Numbers, root: int)
    requires Tidy(g, rank, nums, root)
    ensures Ranked(g, rank) && root in rank && Sized(g, nums) && forall b :: b in rank ==> 0 <= b < |g|
  {
  }

  /** Block b lies on level l, above the leaves, and its dominator sets are exact. */
  ghost predicate OnLevel(g: Graph, rank: map<int, nat>, root: int, edom: seq<set<int>>, l: nat, b: int) {
    && b in rank && rank[b] == l && InnerEdge(g, rank, b) && b < |g|
    && ExactEdom(g, root, edom, b) && ExactEdom(g, root, edom, |g| + b)
  }

  /** No edge leads higher than it did. */
  ghost predicate Lower(g0: Graph, g: Graph, rank: map<int, nat>) {
    |g| == |g0| && forall e :: InnerEdge(g0, rank, e) ==> SuccRank(g, rank, e) <= SuccRank(g0, rank, e)
  }

  /** Graph g came from g0 by moving edges down that leave blocks up to level l. */
  ghost predicate FoldedTo(g0: Graph, g: Graph, rank: map<int, nat>, nums: Numbers, root: int, l: nat) {
    && Tidy(g0, rank, nums, root) && Tidy(g, rank, nums, root) && SameBlocks(g0, g)
    && Preserves(g0, g, rank, nums, root) && SameAbove(g0, g, rank, l) && Lower(g0, g, rank)
  }

  lemma Unfolded(g: Graph, rank: map<int, nat>, nums: Numbers, root: int)
    requires Tidy(g, rank, nums, root)
    ensures FoldedTo(g, g, rank, nums, root, 0)
  {
    hide AllSelfContained, ConstantsNumbered, Sized, Known, SmoothTrace, BlockOk, End, Outcomes, Trace, Leaf;
    assert Preserves(g, g, rank, nums, root);
  }

  lemma FoldedUp(g0: Graph, g: Graph, rank: map<int, nat>, nums: Numbers, root: int, l: nat)
    requires l > 0 && FoldedTo(g0, g, rank, nums, root, l - 1)
    ensures FoldedTo(g0, g, rank, nums, root, l)
  {
    hide Tidy, Preserves, Lower, SameBlocks;
  }

  lemma FoldedEdge(g0: Graph, g: Graph, rank: map<int, nat>, nums: Numbers, root: int, edom: seq<set<int>>, l: nat,
      b: int, e: int)
    requires FoldedTo(g0, g, rank, nums, root, l) && OnLevel(g0, rank, root, edom, l, b) && (e == b || e == |g0| + b)
    ensures InnerEdge(g0, rank, e) && InnerEdge(g, rank, e) && ExactEdom(g, root, edom, e)
  {
    hide Preserves, Lower, Dominates, EdgeGraph, RootEdges, Ranked, Sized, AllSelfContained, ConstantsNumbered,
      ExactEdom;
    ExactStable(g0, g, rank, root, edom, e);
  }

  lemma FoldedNext(g0: Graph, g: Graph, g': Graph, rank: map<int, nat>, nums: Numbers, root: int, l: nat, e: int)
    requires FoldedTo(g0, g, rank, nums, root, l) && InnerEdge(g0, rank, e) && rank[Pred(g0, e)] == l && |g'| == |g|
    requires Tidy(g', rank, nums, root) && SameBlocks(g, g') && Preserves(g, g', rank, nums, root)
    requires EdgeSucc(g', e) in rank && g' == Redirect(g, e, EdgeSucc(g', e))
    requires g' == g || (EdgeSucc(g, e) in rank && rank[EdgeSucc(g', e)] < rank[EdgeSucc(g, e)])
    ensures FoldedTo(g0, g', rank, nums, root, l) && (g' != g ==> g' != g0)
  {
    hide Preserves, Tidy, Ranked;
    if g' != g {
      PreservesTransitive(g0, g, g', rank, nums, root);
      assert SuccRank(g', rank, e) < SuccRank(g, rank, e) <= SuccRank(g0, rank, e);
      forall f | InnerEdge(g0, rank, f) ensures SuccRank(g', rank, f) <= SuccRank(g0, rank, f) {
        if f != e { assert EdgeSucc(g', f) == EdgeSucc(g, f); }
      }
    }
  }

  /** The successor of edge e tests nothing that an edge dominating e has decided. */
  ghost predicate Settled(g: Graph, nums: Numbers, edom: seq<set<int>>, e: int) {
    && Sized(g, nums) && 0 <= e < 2 * |g| == |edom| && 0 <= EdgeSucc(g, e) < |g|
    && (Leaf(g[EdgeSucc(g, e)]) ||
        (g[EdgeSucc(g, e)].jf >= 0 && forall d ::
          d in edom[e] && 0 <= d < 2 * |g| ==> FoldEdge(g, nums, EdgeSucc(g, e), d) < 0))
  }

  /** Both branches of the successor lead to the same place. */
  ghost predicate Useless(g: Graph, e: int) {
    && 0 <= e < 2 * |g| && 0 <= EdgeSucc(g, e) < |g|
    && !Leaf(g[EdgeSucc(g, e)]) && g[EdgeSucc(g, e)].jt == g[EdgeSucc(g, e)].jf
  }

  /** Redirecting one edge does not unsettle another. */
  lemma SettledStable(g: Graph, nums: Numbers, edom: seq<set<int>>, e: int, f: int, target: int)
    requires Settled(g, nums, edom, e) && 0 <= f < 2 * |g| && f != e && !Leaf(g[Pred(g, f)]) && target >= 0
    ensures Settled(Redirect(g, f, target), nums, edom, e)
  {
    var g' := Redirect(g, f, target);
    assert Sized(g', nums) && EdgeSucc(g', e) == EdgeSucc(g, e);
    var c := EdgeSucc(g, e);
    if !Leaf(g[c]) {
      forall d | d in edom[e] && 0 <= d < 2 * |g| ensures FoldEdge(g', nums, c, d) < 0 {
        assert FoldEdge(g, nums, c, d) < 0;
        assert EdgeCode(g', d) == EdgeCode(g, d);
      }
    }
  }

  class JumpFolder {
    var g: Graph
    var edom: seq<set<int>>
    var nums: Numbers
    var outUse: seq<set<int>>
    var done: bool
    const root: int
    ghost const rank: map<int, nat>

    constructor (g: Graph, edom: seq<set<int>>, nums: Numbers, outUse: seq<set<int>>, root: int, ghost rank: map<int,
        nat>)
      ensures this.g == g && this.edom == edom && this.nums == nums && this.outUse == outUse
      ensures this.root == root && this.rank == rank && done
    {
      this.g, this.edom, this.nums, this.outUse, this.root, this.rank, done := g, edom, nums, outUse, root, rank, true;
    }

    /** Does a register that is used behind block succ leave block b with another value? */
    method UseConflict(b: int, succ: int) returns (conflict: bool)
      requires Sized(g, nums) && |outUse| == |g| && 0 <= b < |g| && 0 <= succ < |g|
      ensures conflict <==>
        exists atom :: 0 <= atom < N_ATOMS && atom in outUse[succ] && nums.val[b][atom] != nums.val[succ][atom]
    {
      if outUse[succ] == {} { return false; }
      for atom := 0 to N_ATOMS
        invariant forall a :: 0 <= a < atom && a in outUse[succ] ==> nums.val[b][a] == nums.val[succ][a]
      {
        if atom in outUse[succ] && nums.val[b][atom] != nums.val[succ][atom] { return true; }
      }
      return false;
    }

    /** The state between two edges: no block needs a register of another. */
    ghost predicate Ready()
      reads this
    {
      && Tidy(g, rank, nums, root) && |edom| == 2 * |g| && |outUse| == |g|
      && forall b :: b in rank && 0 <= b < |g| ==> outUse[b] == {}
    }

    /** opt_j: promote the successor of edge e as long as a dominating edge decides its test.
        Only this edge changes, downwards, and no result does; in the end no dominating edge
        decides the test of the successor any more. */
    method OptJ(e: int)
      requires Ready() && InnerEdge(g, rank, e) && ExactEdom(g, root, edom, e)
      modifies this`g, this`done
      ensures Ready() && SameBlocks(old(g), g) && Preserves(old(g), g, rank, nums, root)
      ensures 0 <= EdgeSucc(g, e) < |g| && EdgeSucc(g, e) in rank && g == Redirect(old(g), e, EdgeSucc(g, e))
      ensures g == old(g) || (EdgeSucc(old(g), e) in rank && rank[EdgeSucc(g, e)] < rank[EdgeSucc(old(g), e)])
      ensures done == (old(done) && g == old(g)) && Settled(g, nums, edom, e)
      ensures Useless(old(g), e) ==> g != old(g)
    {
      hide Tidy, InnerEdge, ExactEdom, FoldEdge, Preserves, SameBlocks, Redirect, EdgeSucc, Moving, Ranked, Sized,
        SuccRank;
      var n := |g|;
      ghost var g0 := g;
      Begin(g, rank, nums, root, edom, e);
      MovingFacts(g, g, rank, nums, root, edom, e);
      EdgeFalls(g, rank, e);
      var succ := EdgeSucc(g, e);
      if g[succ].jt < 0 { return; }
      if g[succ].jt == g[succ].jf {
        var conflict := UseConflict(Pred(g, e), g[succ].jt);
        if !conflict {
          done := false;
          SkipPreserves(g, rank, nums, root, e);
          SuccRankIs(g, rank, e);
          Moved(g0, g, rank, nums, root, edom, e, g[succ].jt);
          g := Redirect(g, e, g[succ].jt);
        }
      }
      Promote(e, g0);
      MovingFacts(g0, g, rank, nums, root, edom, e);
    }

    /** The restart loop of opt_j. */
    method Promote(e: int, ghost g0: Graph)
      requires Moving(g0, g, rank, nums, root, edom, e) && |outUse| == |g|
      requires forall b :: b in rank && 0 <= b < |g| ==> outUse[b] == {}
      modifies this`g, this`done
      ensures Moving(g0, g, rank, nums, root, edom, e) && |g| == |old(g)| && Settled(g, nums, edom, e)
      ensures done == (old(done) && g == old(g)) && (g != old(g) ==> g != g0)
    {
      hide Tidy, InnerEdge, ExactEdom, FoldEdge, Preserves, SameBlocks, Redirect, EdgeSucc, Moving, Ranked, Sized,
        SuccRank;
      var n := |g|;
      ghost var changed := false;
      MovingFacts(g0, g, rank, nums, root, edom, e);
      ghost var start := SuccRank(g, rank, e);
      var k := 0;
      while k < 2 * n
        invariant 0 <= k <= 2 * n == 2 * |g| && |edom| == 2 * |g| && |outUse| == |g|
        invariant Moving(g0, g, rank, nums, root, edom, e)
        invariant if changed then !done && g != g0 && SuccRank(g, rank, e) < start else done == old(done) && g == old(g)
        invariant Sized(g, nums) && 0 <= e < 2 * n && 0 <= EdgeSucc(g, e) < n
        invariant forall d :: d in edom[e] && 0 <= d < k ==> FoldEdge(g, nums, EdgeSucc(g, e), d) < 0
        decreases SuccRank(g, rank, e), 2 * n - k
      {
        if k in edom[e] {
          var target := FoldEdge(g, nums, EdgeSucc(g, e), k);
          if target >= 0 {
            FoldMoves(g0, g, rank, nums, root, edom, e, k);
            var conflict := UseConflict(Pred(g, e), target);
            if !conflict {
              done, changed := false, true;
              g := Redirect(g, e, target);
              MovingFacts(g0, g, rank, nums, root, edom, e);
              if g[target].jt >= 0 {
                k := 0;
                continue;
              } else {
                break;
              }
            }
          }
        }
        k := k + 1;
      }
      SuccBranches(g0, g, rank, nums, root, edom, e);
    }

    /** One edge of a block on level l; the edges that were settled stay settled. */
    method FoldOne(b: int, sense: bool, ghost g0: Graph, ghost l: nat, ghost settled: set<int>)
      requires Ready() && FoldedTo(g0, g, rank, nums, root, l) && OnLevel(g0, rank, root, edom, l, b)
      requires forall f :: f in settled ==> Settled(g, nums, edom, f)
      modifies this`g, this`done
      ensures Ready() && FoldedTo(g0, g, rank, nums, root, l) && |g| == |old(g)|
      ensures done == (old(done) && g == old(g)) && (g != old(g) ==> g != g0)
      ensures forall f :: f in settled + {if sense then b else |g| + b} ==> Settled(g, nums, edom, f)
    {
      hide Tidy, ExactEdom, Preserves, Redirect, EdgeSucc, Lower, SuccRank, Settled;
      var e := if sense then b else |g| + b;
      FoldedEdge(g0, g, rank, nums, root, edom, l, b, e);
      OptJ(e);
      FoldedNext(g0, old(g), g, rank, nums, root, l, e);
      forall f | f in settled ensures Settled(g, nums, edom, f) {
        StaysSettled(old(g), g, rank, nums, root, edom, e, f);
      }
    }

    /** The level loop of opt_blks: both edges of every block, from the lowest level up.  The
        dominator sets computed before the pass are exact for the current graph whenever an
        edge is folded, and the pass changes no result; in the end no edge can be folded. */
    method FoldJumps(levels: seq<seq<int>>, maxlevel: nat)
      requires Ready() && maxlevel < |levels|
      requires forall i, j :: 1 <= i < |levels| && 0 <= j < |levels[i]| ==>
        OnLevel(g, rank, root, edom, i, levels[i][j])
      modifies this`g, this`done
      ensures Ready() && SameBlocks(old(g), g) && Preserves(old(g), g, rank, nums, root)
      ensures done == (old(done) && g == old(g))
      ensures forall i, j :: 1 <= i <= maxlevel && 0 <= j < |levels[i]| ==>
        Settled(g, nums, edom, levels[i][j]) && Settled(g, nums, edom, |g| + levels[i][j])
    {
      hide Tidy, OnLevel, Preserves, SameBlocks, Lower, SameAbove, Settled;
      ghost var g0, settled: set<int> := g, {};
      Unfolded(g, rank, nums, root);
      for i := 1 to maxlevel + 1
        invariant Ready() && FoldedTo(g0, g, rank, nums, root, i - 1) && |g| == |g0|
        invariant done == (old(done) && g == g0) && forall f :: f in settled ==> Settled(g, nums, edom, f)
        invariant forall l, m :: 1 <= l < i && 0 <= m < |levels[l]| ==>
          levels[l][m] in settled && |g| + levels[l][m] in settled
      {
        FoldedUp(g0, g, rank, nums, root, i);
        for j := 0 to |levels[i]|
          invariant Ready() && FoldedTo(g0, g, rank, nums, root, i) && |g| == |g0|
          invariant done == (old(done) && g == g0) && forall f :: f in settled ==> Settled(g, nums, edom, f)
          invariant forall l, m :: 1 <= l < i && 0 <= m < |levels[l]| ==>
            levels[l][m] in settled && |g| + levels[l][m] in settled
          invariant forall m :: 0 <= m < j ==> levels[i][m] in settled && |g| + levels[i][m] in settled
        {
          var b := levels[i][j];
          FoldOne(b, true, g0, i, settled);
          settled := settled + {b};
          FoldOne(b, false, g0, i, settled);
          settled := settled + {|g| + b};
        }
      }
    }
  }

  lemma StaysSettled(g: Graph, g': Graph, rank: map<int, nat>, nums: Numbers, root: int, edom: seq<set<int>>, e: int,
      f: int)
    requires Tidy(g, rank, nums, root) && InnerEdge(g, rank, e) && |g'| == |g| && EdgeSucc(g', e) >= 0
    requires g' == Redirect(g, e, EdgeSucc(g', e))
    requires Settled(g, nums, edom, f) && Settled(g', nums, edom, e)
    ensures Settled(g', nums, edom, f)
  {
    hide Ranked, Redirect, AllSelfContained, ConstantsNumbered;
    if f != e { SettledStable(g, nums, edom, f, e, EdgeSucc(g', e)); }
  }

  /** What Preserves means for the machine: the folded graph returns what the original does. */
  lemma FoldedRuns(g: Graph, g': Graph, rank: map<int, nat>, nums: Numbers, root: int, p: Packet, r: Regs)
    requires Tidy(g, rank, nums, root) && Tidy(g', rank, nums, root) && Preserves(g, g', rank, nums, root)
    requires SameBlocks(g, g')
    requires Known(g, rank, nums, p) && Run(g, rank, p, root, r).Returned?
    ensures Run(g', rank, p, root, r) == Run(g, rank, p, root, r)
  {
    hide Ranked, Sized, AllSelfContained, ConstantsNumbered, Known, SmoothTrace, Outcomes, End, Run;
    RunFollowsTrace(g, rank, p, root, r);
    RunFollowsTrace(g', rank, p, root, r);
    assert SameEnd(g, g', rank, root, p);
    TidyKeys(g, rank, nums, root);
  }
}
