/**
 The optimizer's passes over a whole graph, each with the analyses that it needs, as opt_loop
 and bpf_optimize of deps/libpcap/optimize.c run them, and what each does to the results.
 */
module Optimizer {
  import opened Basics
  import opened Machine
  import opened Flow
  import opened Order
  import opened Dominance
  import opened Dominators
  import opened Liveness
  import opened LivenessPass
  import opened DeadStores
  import opened Traces
  import opened Jumps
  import Pullup
  import Intern

  // ----- dead stores in every block -----

  /** A block from which exactly the dead statements have been deleted. */
  ghost predicate Cleaned(b: Block, b': Block, out: set<int>) {
    && b' == b.(stmts := b'.stmts) && |b'.stmts| == |b.stmts|
    && forall k :: 0 <= k < |b.stmts| ==> Decided(b.stmts, b'.stmts, Uses(b.br) + out, k)
  }

  lemma CleanedIsPruned(b: Block, b': Block, out: set<int>)
    requires Cleaned(b, b', out)
    ensures PrunedBlock(b, b', out)
  {
    hide Decided, Uses, Pruned;
    DecidedIsPruned(b.stmts, b'.stmts, Uses(b.br) + out);
  }

  lemma NothingPruned(b: Block, out: set<int>)
    ensures PrunedBlock(b, b, out)
  {
    hide Dead, Uses;
  }

  /** One block. */
  method CleanBlock(b: Block, out: set<int>) returns (b': Block)
    requires BlockOk(b) && AllGood(b.stmts)
    ensures Cleaned(b, b', out)
  {
    hide Decided, Pruned, AllGood, BlockOk, AtomUse, AtomDef, Decode;
    BlockEndUses(b);
    var stmts := new Stmt[|b.stmts|](i requires 0 <= i < |b.stmts| => b.stmts[i]);
    assert stmts[..] == b.stmts;
    OptDeadstores(stmts, b.br, out);
    b' := b.(stmts := stmts[..]);
  }

  /** The blocks in `done` are cleaned, the others as they were. */
  ghost predicate CleanedUpTo(g: Graph, g': Graph, rank: map<int, nat>, done: set<int>)
    requires Ranked(g, rank) && done <= rank.Keys
  {
    && |g'| == |g|
    && (forall b :: b in done ==> 0 <= b < |g| && Cleaned(g[b], g'[b], LiveOut(g, rank, b)))
    && (forall b :: 0 <= b < |g| && b !in done ==> g'[b] == g[b])
  }

  /** Levels, uses and definitions, then opt_deadstores on every block from the root down. */
  method RemoveDeadStores(g: Graph, root: int, ghost rank: map<int, nat>) returns (g': Graph)
    requires Ranked(g, rank) && root in rank && CoveredReturns(g, rank)
    ensures PrunedGraph(g, g', rank) && Ranked(g', rank)
    ensures ConstantReturns(g, rank) ==> ConstantReturns(g', rank)
    ensures forall b :: Reachable(BlockGraph(g), {root}, b) ==>
      b in rank && 0 <= b < |g| == |g'| && Cleaned(g[b], g'[b], LiveOut(g, rank, b))
    ensures forall p, r :: Run(g, rank, p, root, r).Returned? ==> Run(g', rank, p, root, r) == Run(g, rank, p, root, r)
  {
    hide Ranked, Level, LevelLists, LevelsHold, DoneUpTo, WalkOrder, Visit, Elems, LiveOut, LiveIn, Cleaned,
      PrunedGraph, CoveredReturns, ConstantReturns, Reachable, Run, Global;
    var a := new Analysis(g, root, rank);
    a.FindLevels();
    LevelsFound(g, rank, root, a.level, a.levels);
    ghost var visited := Elems(WalkOrder(g, rank, root));
    var ud := new UseDef(g);
    ud.FindUd(a.levels, a.level[root], rank, root, visited, a.level);
    var level, levels, outUse := a.level, a.levels, ud.outUse;
    ghost var inUse := ud.inUse;
    g' := g;
    ghost var done: set<int> := {};
    NothingDone(g, rank, root, visited, level, levels);
    var i: int := level[root];
    while i >= 0
      invariant -1 <= i < |levels| && done <= rank.Keys
      invariant CleanedUpTo(g, g', rank, done) && DoneUpTo(g, rank, visited, levels, done, i, 0)
    {
      for j := 0 to |levels[i]|
        invariant done <= rank.Keys
        invariant CleanedUpTo(g, g', rank, done) && DoneUpTo(g, rank, visited, levels, done, i, j)
      {
        var b := levels[i][j];
        BlockReady(g, rank, root, visited, levels, done, i, j);
        InVisited(g, rank, visited, levels, i, j);
        assert Global(g, rank, inUse, outUse, b);
        GoodBlock(g, rank, b);
        GlobalOut(g, rank, inUse, outUse, b);
        var clean := CleanBlock(g'[b], outUse[b]);
        g' := g'[b := clean];
        done := done + {b};
      }
      LevelDone(g, rank, visited, levels, done, i);
      i := i - 1;
    }
    DoneAll(g, rank, visited, levels, done);
    CleanedGraph(g, g', rank, root, done);
    forall p, r | Run(g, rank, p, root, r).Returned? ensures Run(g', rank, p, root, r) == Run(g, rank, p, root, r) {
      CleanedRuns(g, g', rank, root, p, r);
    }
  }

  lemma InVisited(g: Graph, rank: map<int, nat>, visited: set<int>, levels: seq<seq<int>>, i: nat, j: nat)
    requires Ranked(g, rank) && LevelLists(g, rank, visited, levels) && i < |levels| && j < |levels[i]|
    ensures levels[i][j] in visited
  {
    hide Ranked, Level;
  }

  lemma GoodBlock(g: Graph, rank: map<int, nat>, b: int)
    requires Ranked(g, rank) && CoveredReturns(g, rank) && b in rank && 0 <= b < |g|
    ensures BlockOk(g[b]) && AllGood(g[b].stmts)
  {
    hide BlockOk, AllGood, Decode;
  }

  lemma GlobalOut(g: Graph, rank: map<int, nat>, inUse: seq<set<int>>, outUse: seq<set<int>>, b: int)
    requires Ranked(g, rank) && |inUse| == |outUse| == |g| && Global(g, rank, inUse, outUse, b)
    ensures b in rank && 0 <= b < |g| && outUse[b] == LiveOut(g, rank, b)
  {
    hide Ranked, LiveOut, LiveIn;
  }

  lemma CleanedGraph(g: Graph, g': Graph, rank: map<int, nat>, root: int, done: set<int>)
    requires Ranked(g, rank) && root in rank && CoveredReturns(g, rank) && done <= rank.Keys
    requires CleanedUpTo(g, g', rank, done)
    requires done == Elems(WalkOrder(g, rank, root))
    ensures PrunedGraph(g, g', rank) && Ranked(g', rank)
    ensures ConstantReturns(g, rank) ==> ConstantReturns(g', rank)
    ensures forall b :: Reachable(BlockGraph(g), {root}, b) ==>
      b in rank && 0 <= b < |g| == |g'| && Cleaned(g[b], g'[b], LiveOut(g, rank, b))
  {
    hide ConstantReturns, GoodBlocks, BlockOk, Cleaned, LiveOut, PrunedBlock, WalkOrder, Reachable, CoveredReturns;
    RankedIndices(g, rank);
    forall b | b in rank ensures PrunedBlock(g[b], g'[b], LiveOut(g, rank, b)) {
      if b in done {
        CleanedIsPruned(g[b], g'[b], LiveOut(g, rank, b));
      } else {
        NothingPruned(g[b], LiveOut(g, rank, b));
      }
    }
    CoveredIsGood(g, rank);
    PrunedRanked(g, g', rank);
    forall b | Reachable(BlockGraph(g), {root}, b)
      ensures b in rank && 0 <= b < |g| == |g'| && Cleaned(g[b], g'[b], LiveOut(g, rank, b))
    {
      VisitedReachable(g, rank, root, b);
    }
  }

  lemma CleanedRuns(g: Graph, g': Graph, rank: map<int, nat>, root: int, p: Packet, r: Regs)
    requires Ranked(g, rank) && root in rank && CoveredReturns(g, rank) && PrunedGraph(g, g', rank)
    requires Run(g, rank, p, root, r).Returned?
    ensures Ranked(g', rank) && Run(g', rank, p, root, r) == Run(g, rank, p, root, r)
  {
    hide Ranked, CoveredReturns, ConstantReturns, GoodBlocks, PrunedGraph, Run, LiveIn;
    CoveredIsGood(g, rank);
    PrunedRanked(g, g', rank);
    PruningPreserves(g, g', rank, root, p, r, r);
  }

  // ----- all jumps -----

  /** The levels of the blocks that the root leads to. */
  ghost function LevelRank(g: Graph, rank: map<int, nat>, visited: set<int>): map<int, nat>
    requires Ranked(g, rank) && visited <= rank.Keys
  {
    map b | b in visited :: Level(g, rank, b)
  }

  lemma LevelRanked(g: Graph, rank: map<int, nat>, root: int, visited: set<int>)
    requires Ranked(g, rank) && root in rank && visited == Elems(WalkOrder(g, rank, root)) && visited <= rank.Keys
    ensures Ranked(g, LevelRank(g, rank, visited)) && root in visited
  {
    hide BlockOk, WalkOrder;
    var rank' := LevelRank(g, rank, visited);
    RootVisited(g, rank, root);
    forall b | b in rank' && !Leaf(g[b])
      ensures g[b].jt in rank' && rank'[g[b].jt] < rank'[b] && g[b].jf in rank' && rank'[g[b].jf] < rank'[b]
    {
      WalkOrderClosedUnder(g, rank, root, b);
      LevelFalls(g, rank, b);
    }
  }

  lemma RootVisited(g: Graph, rank: map<int, nat>, root: int)
    requires Ranked(g, rank) && root in rank
    ensures root in Elems(WalkOrder(g, rank, root)) && Elems(WalkOrder(g, rank, root)) <= rank.Keys
  {
    hide BlockOk, Visit;
    WholeWalk(g, rank, root, true);
  }

  /** What the analyses leave is what the folding pass expects. */
  lemma ReadyToFold(g: Graph, rank: map<int, nat>, rank': map<int, nat>, root: int, visited: set<int>,
      level: seq<nat>, levels: seq<seq<int>>,
      edom: seq<set<int>>, inUse: seq<set<int>>, outUse: seq<set<int>>, nums: Numbers)
    requires Ranked(g, rank) && root in rank && Leveled(g, rank, root, visited, level, levels)
    requires rank' == LevelRank(g, rank, visited)
    requires Sized(g, nums) && AllSelfContained(g, rank) && ConstantsNumbered(g, rank, nums)
    requires |edom| == 2 * |g| && |inUse| == |outUse| == |g|
    requires forall b :: b in visited ==> Global(g, rank, inUse, outUse, b)
    requires forall e, d :: 0 <= e < 2 * |g| && Pred(g, e) in visited ==>
      (d in edom[e] <==> Dominates(EdgeGraph(g), RootEdges(g, root), d, e))
    ensures Tidy(g, rank', nums, root)
    ensures forall b :: b in rank' && 0 <= b < |g| ==> outUse[b] == {}
    ensures forall i, j :: 1 <= i < |levels| && 0 <= j < |levels[i]| ==> OnLevel(g, rank', root, edom, i, levels[i][j])
  {
    hide Ranked, Level, WalkOrder, Elems, Dominates, EdgeGraph, RootEdges, LiveIn, LiveOut, SelfContained;
    LevelRanked(g, rank, root, visited);
    forall b | b in rank' && 0 <= b < |g| ensures outUse[b] == {} {
      assert Global(g, rank, inUse, outUse, b);
      GlobalOut(g, rank, inUse, outUse, b);
      NothingLive(g, rank, b);
    }
    forall i, j | 1 <= i < |levels| && 0 <= j < |levels[i]| ensures OnLevel(g, rank', root, edom, i, levels[i][j]) {
      InnerBlock(g, rank, levels[i][j]);
    }
  }

  lemma InnerBlock(g: Graph, rank: map<int, nat>, b: int)
    requires Ranked(g, rank) && b in rank
    ensures 0 <= b < |g| && (Leaf(g[b]) <==> Level(g, rank, b) == 0)
  {
    hide BlockOk;
  }

  /** Levels, edge dominators and liveness, then opt_j on every edge in ascending level order. */
  method FoldAllJumps(g: Graph, root: int, ghost rank: map<int, nat>, nums: Numbers)
      returns (g': Graph, ghost rank': map<int, nat>, ghost edom: seq<set<int>>)
    requires Ranked(g, rank) && root in rank && WellLinked(g) && Sized(g, nums)
    requires AllSelfContained(g, rank) && ConstantsNumbered(g, rank, nums)
    ensures Ranked(g', rank') && root in rank' && SameBlocks(g, g')
    ensures forall b :: b in rank' <==> Reachable(BlockGraph(g), {root}, b)
    ensures forall p, r :: Known(g, rank', nums, p) && Run(g, rank, p, root, r).Returned? ==>
      Run(g', rank', p, root, r) == Run(g, rank, p, root, r)
    ensures forall b :: b in rank' && !Leaf(g[b]) ==>
      && ExactEdom(g, root, edom, b) && ExactEdom(g, root, edom, |g| + b)
      && Settled(g', nums, edom, b) && Settled(g', nums, edom, |g| + b)
  {
    hide Ranked, Level, LevelsHold, WalkOrder, Visit, Elems, Reachable, Run, Global, Dominates, EdgeGraph, RootEdges,
      Known, WellLinked, AllSelfContained, ConstantsNumbered, Sized, OnLevel, Preserves, Settled, Tidy, ExactEdom,
      LevelRank;
    var a := new Analysis(g, root, rank);
    a.FindLevels();
    LevelsFound(g, rank, root, a.level, a.levels);
    ghost var visited := Elems(WalkOrder(g, rank, root));
    a.FindEdom(visited);
    var ud := new UseDef(g);
    ud.FindUd(a.levels, a.level[root], rank, root, visited, a.level);
    rank', edom := LevelRank(g, rank, visited), a.edom;
    ReadyToFold(g, rank, rank', root, visited, a.level, a.levels, a.edom, ud.inUse, ud.outUse, nums);
    var levels, maxlevel := a.levels, a.level[root];
    var folder := new JumpFolder(g, a.edom, nums, ud.outUse, root, rank');
    folder.FoldJumps(levels, maxlevel);
    g' := folder.g;
    TidyKeys(g', rank', nums, root);
    TidyKeys(g, rank', nums, root);
    RankIsReachable(g, rank, root, visited);
    forall p, r | Known(g, rank', nums, p) && Run(g, rank, p, root, r).Returned?
      ensures Run(g', rank', p, root, r) == Run(g, rank, p, root, r)
    {
      RunIgnoresRank(g, rank, rank', p, root, r);
      FoldedRuns(g, g', rank', nums, root, p, r);
    }
    forall b | b in rank' && !Leaf(g[b])
      ensures ExactEdom(g, root, edom, b) && ExactEdom(g, root, edom, |g| + b)
      ensures Settled(g', nums, edom, b) && Settled(g', nums, edom, |g| + b)
    {
      var l, j := ListedAt(g, rank, root, visited, a.level, levels, b);
      assert OnLevel(g, rank', root, edom, l, levels[l][j]);
      LevelExact(g, rank', root, edom, l, b);
    }
  }

  lemma LevelExact(g: Graph, rank: map<int, nat>, root: int, edom: seq<set<int>>, l: nat, b: int)
    requires OnLevel(g, rank, root, edom, l, b)
    ensures ExactEdom(g, root, edom, b) && ExactEdom(g, root, edom, |g| + b)
  {
    hide ExactEdom;
  }

  lemma RankIsReachable(g: Graph, rank: map<int, nat>, root: int, visited: set<int>)
    requires Ranked(g, rank) && root in rank && visited == Elems(WalkOrder(g, rank, root)) && visited <= rank.Keys
    ensures forall b :: b in LevelRank(g, rank, visited) <==> Reachable(BlockGraph(g), {root}, b)
  {
    hide Ranked, WalkOrder, Reachable, Level;
    forall b ensures b in visited <==> Reachable(BlockGraph(g), {root}, b) { VisitedReachable(g, rank, root, b); }
  }

  /** Where an inner block stands in the level lists. */
  lemma ListedAt(g: Graph, rank: map<int, nat>, root: int, visited: set<int>, level: seq<nat>, levels: seq<seq<int>>,
      b: int)
      returns (l: nat, j: nat)
    requires Ranked(g, rank) && Leveled(g, rank, root, visited, level, levels) && b in LevelRank(g, rank, visited)
    requires 0 <= b < |g| && !Leaf(g[b])
    ensures 1 <= l <= level[root] && l < |levels| && j < |levels[l]| && levels[l][j] == b
  {
    NotAboveRoot(g, rank, root, visited, level, levels, b);
    hide Ranked, Level, WalkOrder;
    InnerBlock(g, rank, b);
    l := Level(g, rank, b);
    j :| 0 <= j < |levels[l]| && levels[l][j] == b;
  }

  lemma NotAboveRoot(g: Graph, rank: map<int, nat>, root: int, visited: set<int>, level: seq<nat>,
      levels: seq<seq<int>>, b: int)
    requires Ranked(g, rank) && Leveled(g, rank, root, visited, level, levels) && b in visited
    ensures visited <= rank.Keys && level[root] < |levels| && Level(g, rank, b) <= level[root]
  {
    hide Ranked, Level, WalkOrder, LevelLists;
    NothingDone(g, rank, root, visited, level, levels);
    assert b !in {};
  }

  // ----- one chain -----

  /** The edges into x from the blocks in `done`. */
  ghost predicate EdgesInto(g: Graph, done: set<int>, x: int, l: seq<int>) {
    && Distinct(l)
    && forall e :: e in l <==> 0 <= e < 2 * |g| && Pred(g, e) in done && !Leaf(g[Pred(g, e)]) && EdgeSucc(g, e) == x
  }

  ghost predicate AllEdgesInto(g: Graph, done: set<int>, inEdges: seq<seq<int>>) {
    |inEdges| == |g| && forall x :: 0 <= x < |g| ==> EdgesInto(g, done, x, inEdges[x])
  }

  /** link_inedge for both edges of a block. */
  function LinkBoth(g: Graph, b: int, inEdges: seq<seq<int>>): seq<seq<int>>
    requires 0 <= b < |g| == |inEdges| && 0 <= g[b].jt < |g| && 0 <= g[b].jf < |g|
  {
    var one := inEdges[g[b].jt := [b] + inEdges[g[b].jt]];
    one[g[b].jf := [|g| + b] + one[g[b].jf]]
  }

  lemma BothLinked(g: Graph, b: int, done: set<int>, inEdges: seq<seq<int>>)
    requires AllEdgesInto(g, done, inEdges) && 0 <= b < |g| && !Leaf(g[b]) && 0 <= g[b].jt < |g| && 0 <= g[b].jf < |g|
    requires b !in done
    requires forall x :: x in done ==> 0 <= x < |g|
    ensures AllEdgesInto(g, done + {b}, LinkBoth(g, b, inEdges))
  {
    forall x | 0 <= x < |g| ensures EdgesInto(g, done + {b}, x, LinkBoth(g, b, inEdges)[x]) {
      assert EdgesInto(g, done, x, inEdges[x]);
      LinkedAt(g, b, done, x, inEdges[x], LinkBoth(g, b, inEdges)[x]);
    }
  }

  lemma LinkedAt(g: Graph, b: int, done: set<int>, x: int, l: seq<int>, l': seq<int>)
    requires EdgesInto(g, done, x, l) && 0 <= b < |g| && !Leaf(g[b]) && b !in done && 0 <= x < |g|
    requires forall y :: y in done ==> 0 <= y < |g|
    requires l' == (if g[b].jf == x then [|g| + b] else []) + ((if g[b].jt == x then [b] else []) + l)
    ensures EdgesInto(g, done + {b}, x, l')
  {
    assert b !in l && |g| + b !in l;
    forall e | 0 <= e < 2 * |g| ensures Pred(g, e) == b <==> e == b || e == |g| + b {}
  }

  /** find_inedges: the edges of all blocks above the leaves, from the root's level down. */
  method FindInedges(g: Graph, levels: seq<seq<int>>, maxlevel: nat, ghost rank: map<int, nat>, ghost root: int,
      ghost visited: set<int>, ghost level: seq<nat>)
      returns (inEdges: seq<seq<int>>)
    requires Leveled(g, rank, root, visited, level, levels) && maxlevel == level[root] && visited == rank.Keys
    ensures |inEdges| == |g| && forall x :: x in rank && 0 <= x < |g| ==> Pullup.ExactIn(g, rank, x, inEdges[x])
  {
    hide Ranked, Level, LevelLists, DoneUpTo, WalkOrder, Elems, AllEdgesInto, LinkBoth;
    inEdges := seq(|g|, _ => []);
    NothingInto(g);
    ghost var done: set<int> := {};
    NothingDone(g, rank, root, visited, level, levels);
    var i: int := maxlevel;
    while i > 0
      invariant 0 <= i < |levels| && done <= rank.Keys
      invariant |inEdges| == |g| && AllEdgesInto(g, done, inEdges) && DoneUpTo(g, rank, visited, levels, done, i, 0)
    {
      for j := 0 to |levels[i]|
        invariant done <= rank.Keys
        invariant |inEdges| == |g| && AllEdgesInto(g, done, inEdges) && DoneUpTo(g, rank, visited, levels, done, i, j)
      {
        var b := levels[i][j];
        BlockReady(g, rank, root, visited, levels, done, i, j);
        AboveLeaves(g, rank, visited, levels, done, i, j);
        BothLinked(g, b, done, inEdges);
        LinkBothIs(g, b, inEdges);
        inEdges := inEdges[g[b].jt := [b] + inEdges[g[b].jt]];
        inEdges := inEdges[g[b].jf := [|g| + b] + inEdges[g[b].jf]];
        done := done + {b};
      }
      LevelDone(g, rank, visited, levels, done, i);
      i := i - 1;
    }
    AllLinked(g, rank, visited, levels, done, inEdges);
  }

  lemma NothingInto(g: Graph)
    ensures AllEdgesInto(g, {}, seq(|g|, _ => []))
  {
  }

  lemma LinkBothIs(g: Graph, b: int, inEdges: seq<seq<int>>)
    requires 0 <= b < |g| == |inEdges| && 0 <= g[b].jt < |g| && 0 <= g[b].jf < |g|
    ensures |LinkBoth(g, b, inEdges)| == |g|
    ensures var one := inEdges[g[b].jt := [b] + inEdges[g[b].jt]];
      LinkBoth(g, b, inEdges) == one[g[b].jf := [|g| + b] + one[g[b].jf]]
  {
  }

  /** A block on a level above the leaves has successors; it has not been processed. */
  lemma AboveLeaves(g: Graph, rank: map<int, nat>, visited: set<int>, levels: seq<seq<int>>, done: set<int>, i: nat,
      j: nat)
    requires Ranked(g, rank) && visited <= rank.Keys && LevelLists(g, rank, visited, levels) && 0 < i < |levels|
    requires j < |levels[i]|
    requires DoneUpTo(g, rank, visited, levels, done, i, j)
    ensures var b := levels[i][j]; 0 <= b < |g| && !Leaf(g[b]) && 0 <= g[b].jt < |g| && 0 <= g[b].jf < |g| && b !in done
    ensures forall x :: x in done ==> 0 <= x < |g|
  {
    hide BlockOk;
    var b := levels[i][j];
    InnerBlock(g, rank, b);
    RankedIndices(g, rank);
    assert b !in levels[i][..j];
  }

  lemma AllLinked(g: Graph, rank: map<int, nat>, visited: set<int>, levels: seq<seq<int>>, done: set<int>,
      inEdges: seq<seq<int>>)
    requires Ranked(g, rank) && visited == rank.Keys && DoneUpTo(g, rank, visited, levels, done, 0, 0)
    requires AllEdgesInto(g, done, inEdges)
    requires LevelLists(g, rank, visited, levels) && |levels| > 0
    ensures |inEdges| == |g| && forall x :: x in rank && 0 <= x < |g| ==> Pullup.ExactIn(g, rank, x, inEdges[x])
  {
    hide BlockOk, Level, Distinct, LevelLists;
    assert levels[0][..0] == [];
    forall b | b in rank ensures 0 <= b < |g| && (Leaf(g[b]) <==> Level(g, rank, b) == 0) { InnerBlock(g, rank, b); }
    forall x | x in rank && 0 <= x < |g| ensures Pullup.ExactIn(g, rank, x, inEdges[x]) {
      assert EdgesInto(g, done, x, inEdges[x]);
    }
  }

  /** Levels, dominators and predecessors, then or_pullup (side) or and_pullup (!side) on a
      reachable block. */
  method PullAt(g: Graph, root: int, ghost rank0: map<int, nat>, aval: seq<int>, b: int, side: bool)
      returns (g': Graph, ghost rank: map<int, nat>, ghost rank': map<int, nat>, ghost l: seq<int>, ghost moved: bool,
        ghost c: seq<int>, ghost k: nat)
    requires Ranked(g, rank0) && root in rank0 && |aval| == |g|
    requires Reachable(BlockGraph(g), {root}, b) && 0 <= b < |g| && !Leaf(g[b])
    ensures Pullup.Rooted(g, rank, root) && Ranked(g', rank') && root in rank' && rank'.Keys == rank.Keys
    ensures Pullup.SameResults(g, g', rank, rank', root) && Pullup.OnlyJumps(g, g', rank) && (moved <==> g' != g)
    ensures Pullup.ExactIn(g, rank, b, l)
    ensures moved ==> Pullup.Movable(g, rank, root, side, b, aval, l, c, k) && Pullup.IsPulled(g, g', rank, side, c, k)
    ensures !moved ==> forall d, n :: !Pullup.Movable(g, rank, root, side, b, aval, l, d, n)
    ensures forall p, r :: AllSelfContained(g, rank) && (forall x :: x in rank && 0 <= x < |g| ==> Smooth(g[x], p)) ==>
      Run(g', rank', p, root, r) == Run(g, rank0, p, root, r)
  {
    hide Ranked, Level, LevelsHold, WalkOrder, Visit, Elems, Reachable, Run, Dominates, BlockGraph, AllSelfContained,
      Smooth, Pullup.Movable, Pullup.IsPulled, Pullup.ExactIn, Pullup.SameResults, Pullup.OnlyJumps;
    rank := Pullup.RootedExists(g, rank0, root);
    Pullup.RootedRanked(g, rank, root);
    var a := new Analysis(g, root, rank);
    a.FindLevels();
    LevelsFound(g, rank, root, a.level, a.levels);
    ghost var visited := Elems(WalkOrder(g, rank, root));
    AllVisited(g, rank, root);
    a.FindDom(visited);
    var inEdges := FindInedges(g, a.levels, a.level[root], rank, root, visited, a.level);
    var o := new Pullup.ChainOptimizer(g, a.dom, inEdges, aval, root, rank);
    moved, c, k := o.PullUp(b, side);
    g', rank', l := o.g, o.rank, inEdges[b];
    forall d, n: nat | !moved ensures !Pullup.Movable(g, rank, root, side, b, aval, l, d, n) {
      assert !Pullup.Movable(g, rank, o.root, side, b, o.aval, o.inEdges[b], d, n);
    }
    forall p, r | AllSelfContained(g, rank) && (forall x :: x in rank && 0 <= x < |g| ==> Smooth(g[x], p))
      ensures Run(g', rank', p, root, r) == Run(g, rank0, p, root, r)
    {
      RankedIndices(g, rank);
      ResultsSize(g, g', rank, rank', root);
      Pullup.PulledRuns(g, g', rank, rank', root, p, r);
      RunIgnoresRank(g, rank, rank0, p, root, r);
    }
  }

  lemma ResultsSize(g: Graph, g': Graph, rank: map<int, nat>, rank': map<int, nat>, root: int)
    requires Ranked(g, rank) && Ranked(g', rank') && root in rank && root in rank'
    requires Pullup.SameResults(g, g', rank, rank', root)
    ensures |g'| == |g|
  {
    hide Ranked, End;
  }

  lemma AllVisited(g: Graph, rank: map<int, nat>, root: int)
    requires Pullup.Rooted(g, rank, root)
    ensures Elems(WalkOrder(g, rank, root)) == rank.Keys
  {
    hide Ranked, WalkOrder, Reachable;
    forall b | b in rank ensures b in Elems(WalkOrder(g, rank, root)) { VisitedReachable(g, rank, root, b); }
    RootVisited(g, rank, root);
  }

  // ----- equal blocks -----

  /** intern_blocks on any acyclic graph: every result on every packet stays, and no two blocks
      that are still reachable are equal. */
  method MergeBlocks(g: Graph, root: int, ghost rank: map<int, nat>) returns (g': Graph, ghost rank': map<int, nat>)
    requires Ranked(g, rank) && root in rank && WellLinked(g)
    ensures |g'| == |g| && WellLinked(g') && Ranked(g', rank') && rank'.Keys == rank.Keys
    ensures Intern.AllDifferent(g', rank', root)
    ensures forall p, r :: Run(g', rank', p, root, r) == Run(g, rank, p, root, r)
  {
    hide Ranked, WellLinked, Run, Intern.ByLevel, Intern.AllDifferent;
    rank' := Intern.ByLevelExists(g, rank);
    var o := new Intern.Interner(g, root, rank');
    Intern.LevelRanked(g, rank');
    o.InternBlocks();
    g' := o.g;
    Intern.LevelRanked(g', rank');
    forall p, r ensures Run(g', rank', p, root, r) == Run(g, rank, p, root, r) {
      RunIgnoresRank(g, rank, rank', p, root, r);
    }
  }
}
