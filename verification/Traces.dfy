/**
 The path of a run through a graph whose blocks are self-contained: no block depends on what
 an earlier one leaves in the registers, so the packet alone decides every test.  Rewriting
 jumps is then a matter of paths.
 */
module Traces {
  import opened Machine
  import opened Flow
  import opened Liveness

  // ----- self-contained blocks -----

  /** Nothing is live on entry to the block or on its exit. */
  ghost predicate SelfContained(b: Block) {
    && AllGood(b.stmts) && (Leaf(b) ==> Decode(b.br.code).RetK?)
    && LiveBefore(b.stmts, BranchUses(b.br)) == {}
  }

  ghost predicate AllSelfContained(g: Graph, rank: map<int, nat>) {
    forall b :: b in rank ==> 0 <= b < |g| && SelfContained(g[b])
  }

  lemma LiveBeforeMonotone(ss: seq<Stmt>, after: set<int>, after': set<int>)
    requires after <= after'
    ensures LiveBefore(ss, after) <= LiveBefore(ss, after')
  {
    hide Uses, Defs;
  }

  lemma {:induction false} NothingLive(g: Graph, rank: map<int, nat>, b: int)
    requires Ranked(g, rank) && b in rank && AllSelfContained(g, rank)
    ensures LiveIn(g, rank, b) == {} && LiveOut(g, rank, b) == {}
    decreases rank[b]
  {
    hide BlockOk, AllGood, BranchUses, LiveBefore, Decode;
    assert SelfContained(g[b]);
    if !Leaf(g[b]) {
      NothingLive(g, rank, g[b].jt);
      NothingLive(g, rank, g[b].jf);
    }
    var out := LiveOut(g, rank, b);
    assert out == {};
    assert BranchUses(g[b].br) + out == BranchUses(g[b].br);
  }

  /** The in_use sets are all empty exactly when every block is self-contained. */
  lemma EmptyInUse(g: Graph, rank: map<int, nat>)
    requires Ranked(g, rank) && ConstantReturns(g, rank)
    ensures AllSelfContained(g, rank) <==> forall b :: b in rank ==> LiveIn(g, rank, b) == {}
  {
    hide BlockOk, AllGood, BranchUses, LiveBefore;
    if AllSelfContained(g, rank) {
      forall b | b in rank ensures LiveIn(g, rank, b) == {} { NothingLive(g, rank, b); }
    }
    if forall b :: b in rank ==> LiveIn(g, rank, b) == {} {
      forall b | b in rank ensures 0 <= b < |g| && SelfContained(g[b]) {
        LiveBeforeMonotone(g[b].stmts, BranchUses(g[b].br), BranchUses(g[b].br) + LiveOut(g, rank, b));
      }
    }
  }

  const Zero: Regs := RegFile(0, 0, [0, 0, 0, 0, 0, 0, 0, 0, 0, 0, 0, 0, 0, 0, 0, 0])

  /** The block's statements run to the end on this packet. */
  predicate Smooth(b: Block, p: Packet) {
    && (forall s :: s in b.stmts ==> StmtOk(s))
    && RunStmts(b.stmts, p, Zero).Next?
  }

  /** The outcome of the block's test on this packet. */
  predicate Passes(b: Block, p: Packet) {
    Smooth(b, p) && IsBranch(b.br) && Taken(b.br, RunStmts(b.stmts, p, Zero).r)
  }

  lemma SelfContainedRuns(b: Block, p: Packet, r: Regs)
    requires BlockOk(b) && SelfContained(b)
    ensures Smooth(b, p) <==> RunStmts(b.stmts, p, r).Next?
    ensures Smooth(b, p) && !Leaf(b) ==> Passes(b, p) == Taken(b.br, RunStmts(b.stmts, p, r).r)
  {
    hide Decode, LiveBefore, BranchUses, Taken, RunStmts, StmtOk, Safe;
    StmtsAgree(b.stmts, p, r, Zero, BranchUses(b.br));
    if Smooth(b, p) && !Leaf(b) {
      BranchAgrees(b.br, RunStmts(b.stmts, p, r).r, RunStmts(b.stmts, p, Zero).r);
    }
  }

  // ----- paths -----

  /** The outcome of each block's test. */
  type Tests = seq<bool>

  ghost function Outcomes(g: Graph, p: Packet): Tests {
    seq(|g|, b requires 0 <= b < |g| => Passes(g[b], p))
  }

  ghost function Goto(g: Graph, t: Tests, b: int): int
    requires 0 <= b < |g| == |t|
  {
    if t[b] then g[b].jt else g[b].jf
  }

  /** The blocks of the run from b. */
  ghost function Trace(g: Graph, rank: map<int, nat>, t: Tests, b: int): seq<int>
    requires Ranked(g, rank) && b in rank && |t| == |g|
    decreases rank[b]
  {
    if Leaf(g[b]) then [b] else [b] + Trace(g, rank, t, Goto(g, t, b))
  }

  /** The leaf where it ends. */
  ghost function End(g: Graph, rank: map<int, nat>, t: Tests, b: int): int
    requires Ranked(g, rank) && b in rank && |t| == |g|
    decreases rank[b]
  {
    if Leaf(g[b]) then b else End(g, rank, t, Goto(g, t, b))
  }

  lemma {:induction false} OnTrace(g: Graph, rank: map<int, nat>, t: Tests, b: int, x: int)
    requires Ranked(g, rank) && b in rank && |t| == |g| && x in Trace(g, rank, t, b)
    ensures x in rank && 0 <= x < |g| && rank[x] <= rank[b]
    ensures End(g, rank, t, x) == End(g, rank, t, b)
    ensures !Leaf(g[x]) ==> Goto(g, t, x) in Trace(g, rank, t, b)
    decreases rank[b]
  {
    hide BlockOk;
    if !Leaf(g[b]) {
      var c := Goto(g, t, b);
      assert c in Trace(g, rank, t, c);
      if x != b { OnTrace(g, rank, t, c, x); }
    }
  }

  lemma {:induction false} EndOnTrace(g: Graph, rank: map<int, nat>, t: Tests, b: int)
    requires Ranked(g, rank) && b in rank && |t| == |g|
    ensures End(g, rank, t, b) in Trace(g, rank, t, b) && End(g, rank, t, b) in rank && Leaf(g[End(g, rank, t, b)])
    decreases rank[b]
  {
    hide BlockOk;
    if !Leaf(g[b]) { EndOnTrace(g, rank, t, Goto(g, t, b)); }
  }

  /** g' jumps, from every block of g's run, to some block of that run. */
  ghost predicate Shortcuts(g: Graph, g': Graph, rank: map<int, nat>, rank': map<int, nat>, t: Tests, root: int)
    requires Ranked(g, rank) && Ranked(g', rank') && root in rank && |t| == |g|
  {
    forall x :: x in Trace(g, rank, t, root) ==>
      x in rank' && x < |g| <= |g'| && (Leaf(g'[x]) <==> Leaf(g[x]))
      && (!Leaf(g[x]) ==> (if t[x] then g'[x].jt else g'[x].jf) in Trace(g, rank, t, root))
  }

  /** Then it ends in the same leaf, and passes no block that g's run did not pass. */
  lemma {:induction false} ShortcutEnds(g: Graph, g': Graph, rank: map<int, nat>, rank': map<int, nat>, t: Tests,
      t': Tests, root: int, x: int)
    requires Ranked(g, rank) && Ranked(g', rank') && root in rank && |t| == |g| && |t'| == |g'|
    requires Shortcuts(g, g', rank, rank', t, root) && x in Trace(g, rank, t, root)
    requires forall b :: 0 <= b < |g| && b < |g'| ==> t'[b] == t[b]
    ensures x in rank' && End(g', rank', t', x) == End(g, rank, t, root)
    ensures forall y :: y in Trace(g', rank', t', x) ==> y in Trace(g, rank, t, root)
    decreases rank'[x]
  {
    OnTrace(g, rank, t, root, x);
    hide BlockOk;
    if Leaf(g[x]) {
      assert End(g, rank, t, x) == x;
    } else {
      ShortcutEnds(g, g', rank, rank', t, t', root, Goto(g', t', x));
    }
  }

  // ----- the machine follows the path -----

  ghost predicate SmoothTrace(g: Graph, rank: map<int, nat>, p: Packet, b: int)
    requires Ranked(g, rank) && b in rank
  {
    forall x :: x in Trace(g, rank, Outcomes(g, p), b) ==> 0 <= x < |g| && Smooth(g[x], p)
  }

  /** A run returns if and only if no block on its path rejects, and then it returns what the
      leaf at the end of the path says. */
  lemma {:induction false} RunFollowsTrace(g: Graph, rank: map<int, nat>, p: Packet, b: int, r: Regs)
    requires Ranked(g, rank) && b in rank && AllSelfContained(g, rank)
    ensures Run(g, rank, p, b, r).Returned? <==> SmoothTrace(g, rank, p, b)
    ensures End(g, rank, Outcomes(g, p), b) in rank
    ensures SmoothTrace(g, rank, p, b) ==> Run(g, rank, p, b, r) == Returned(g[End(g, rank, Outcomes(g, p), b)].br.k)
    decreases rank[b]
  {
    hide Decode, LiveBefore, BranchUses, Taken, RunStmts, StmtOk, Smooth, Passes, AllGood, IsBranch;
    SelfContainedRuns(g[b], p, r);
    if Leaf(g[b]) {
      assert Trace(g, rank, Outcomes(g, p), b) == [b];
    } else {
      var t := Outcomes(g, p);
      var c := Goto(g, t, b);
      assert Trace(g, rank, t, b) == [b] + Trace(g, rank, t, c);
      assert t[b] == Passes(g[b], p);
      if Smooth(g[b], p) {
        RunFollowsTrace(g, rank, p, c, RunStmts(g[b].stmts, p, r).r);
        assert SmoothTrace(g, rank, p, b) <==> SmoothTrace(g, rank, p, c);
      } else {
        assert b in Trace(g, rank, t, b);
        RunFollowsTrace(g, rank, p, c, r);
      }
    }
  }
}
