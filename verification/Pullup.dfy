/**
 Chain reordering: or_pullup and and_pullup of deps/libpcap/optimize.c.

 A chain is a list of blocks with a common successor on one side, each the successor of the
 one before on the other side.  A block further down that tests the value which is loaded
 where the chain is entered is moved to the front of the blocks that test another value.  The
 two functions are mirror images; here the common side is a parameter: true for or_pullup,
 false for and_pullup.
 */
module Pullup {
  import opened Basics
  import opened Machine
  import opened Flow
  import opened Liveness
  import opened Dominance
  import opened Dominators
  import opened Traces
  import opened Order

  function Arm(b: Block, side: bool): int { if side then b.jt else b.jf }

  function WithArm(b: Block, side: bool, to: int): Block {
    if side then b.(jt := to) else b.(jf := to)
  }

  // ----- chains -----

  ghost predicate LinkAt(g: Graph, rank: map<int, nat>, side: bool, c: seq<int>, i: nat)
    requires i < |c|
  {
    && c[i] in rank && 0 <= c[i] < |g| && !Leaf(g[c[i]])
    && 0 <= c[0] < |g| && Arm(g[c[i]], side) == Arm(g[c[0]], side)
    && (i + 1 < |c| ==> Arm(g[c[i]], !side) == c[i + 1])
  }

  /** Every block of c dominated by the first, with the same successor on one side and the
      next block of c on the other. */
  ghost predicate Chain(g: Graph, rank: map<int, nat>, root: int, side: bool, c: seq<int>) {
    && |c| > 0
    && (forall i :: 0 <= i < |c| ==> LinkAt(g, rank, side, c, i))
    && (forall i :: 0 <= i < |c| ==> Dominates(BlockGraph(g), {root}, c[0], c[i]))
  }

  /** The blocks considered are those that can be reached. */
  ghost predicate Rooted(g: Graph, rank: map<int, nat>, root: int) {
    && Ranked(g, rank) && root in rank
    && forall b :: b in rank ==> Reachable(BlockGraph(g), {root}, b)
  }

  /** Every acyclic graph has such a numbering. */
  lemma RootedExists(g: Graph, rank: map<int, nat>, root: int) returns (rank': map<int, nat>)
    requires Ranked(g, rank) && root in rank
    ensures Rooted(g, rank', root) && forall b :: b in rank' ==> b in rank && rank'[b] == rank[b]
    ensures forall b :: Reachable(BlockGraph(g), {root}, b) <==> b in rank'
  {
    hide BlockOk;
    rank' := map b | b in rank && Reachable(BlockGraph(g), {root}, b) :: rank[b];
    assert PathTo(BlockGraph(g), {root}, [root], root);
    forall b | b in rank' && !Leaf(g[b]) ensures g[b].jt in rank' && g[b].jf in rank' {
      var p :| PathTo(BlockGraph(g), {root}, p, b);
      ExtendPath(BlockGraph(g), {root}, p, b, g[b].jt);
      ExtendPath(BlockGraph(g), {root}, p, b, g[b].jf);
    }
    forall b | Reachable(BlockGraph(g), {root}, b) ensures b in rank' {
      var p :| PathTo(BlockGraph(g), {root}, p, b);
      PathRanked(g, rank, root, p, |p| - 1);
    }
  }

  lemma {:induction false} PathRanked(g: Graph, rank: map<int, nat>, root: int, p: seq<int>, i: nat)
    requires Ranked(g, rank) && root in rank && Path(BlockGraph(g), {root}, p) && i < |p|
    ensures p[i] in rank
  {
    hide BlockOk;
    if i > 0 {
      PathRanked(g, rank, root, p, i - 1);
      assert EdgeAt(BlockGraph(g), p, i - 1);
    }
  }

  lemma {:induction false} PathFalls(g: Graph, rank: map<int, nat>, root: int, p: seq<int>, i: nat, j: nat)
    requires Ranked(g, rank) && root in rank && Path(BlockGraph(g), {root}, p) && i < j < |p|
    ensures p[i] in rank && p[j] in rank && rank[p[j]] < rank[p[i]]
    decreases j
  {
    hide BlockOk, Path;
    PathRanked(g, rank, root, p, j - 1);
    PathStep(g, rank, root, p, j - 1);
    if i < j - 1 { PathFalls(g, rank, root, p, i, j - 1); }
  }

  lemma PathStep(g: Graph, rank: map<int, nat>, root: int, p: seq<int>, i: nat)
    requires Ranked(g, rank) && root in rank && Path(BlockGraph(g), {root}, p) && i < |p| - 1 && p[i] in rank
    ensures !Leaf(g[p[i]]) && (p[i + 1] == g[p[i]].jt || p[i + 1] == g[p[i]].jf)
    ensures p[i + 1] in rank && rank[p[i + 1]] < rank[p[i]]
  {
    hide BlockOk;
    assert EdgeAt(BlockGraph(g), p, i);
  }

  lemma {:induction false} ChainFalls(g: Graph, rank: map<int, nat>, root: int, side: bool, c: seq<int>, i: nat, j: nat)
    requires Ranked(g, rank) && Chain(g, rank, root, side, c) && i <= j < |c|
    ensures c[i] in rank && c[j] in rank && rank[c[j]] <= rank[c[i]] && (i < j ==> rank[c[j]] < rank[c[i]])
    ensures 0 <= c[0] < |g| && var J := Arm(g[c[0]], side); J in rank && rank[J] < rank[c[j]]
    decreases j
  {
    hide BlockOk, Dominates;
    assert LinkAt(g, rank, side, c, 0);
    assert LinkAt(g, rank, side, c, j);
    if i < j {
      assert LinkAt(g, rank, side, c, j - 1);
      ChainFalls(g, rank, root, side, c, i, j - 1);
    }
  }

  /** A path that leaves the chain does so through the common successor, from which no block
      of the chain can be reached: a path to c[n] that passes c[l] goes down the chain. */
  lemma {:induction false} DownTheChain(g: Graph, rank: map<int, nat>, root: int, side: bool, c: seq<int>,
      p: seq<int>, i: nat, l: nat, n: nat)
    requires Ranked(g, rank) && root in rank && Chain(g, rank, root, side, c) && l < n < |c|
    requires Path(BlockGraph(g), {root}, p) && i < |p| && p[i] == c[l] && p[|p| - 1] == c[n]
    ensures |p| > 1 && p[|p| - 2] == c[n - 1]
    decreases |p| - i
  {
    hide Ranked, Path, Dominates, BlockGraph;
    ChainFalls(g, rank, root, side, c, l, n);
    assert i < |p| - 1;
    assert LinkAt(g, rank, side, c, l);
    PathStep(g, rank, root, p, i);
    if p[i + 1] == c[l + 1] {
      if l + 1 < n {
        DownTheChain(g, rank, root, side, c, p, i + 1, l + 1, n);
      } else if i + 1 < |p| - 1 {
        PathFalls(g, rank, root, p, i + 1, |p| - 1);
        assert false;
      }
    } else {
      assert p[i + 1] == Arm(g[c[0]], side);
      if i + 1 < |p| - 1 { PathFalls(g, rank, root, p, i + 1, |p| - 1); }
      assert false;
    }
  }

  /** A block inside the chain can only be entered from the block before it. */
  lemma SingleEntry(g: Graph, rank: map<int, nat>, root: int, side: bool, c: seq<int>, n: nat, x: int)
    requires Rooted(g, rank, root) && Chain(g, rank, root, side, c) && 0 < n < |c|
    requires x in rank && !Leaf(g[x]) && (c[n] == g[x].jt || c[n] == g[x].jf)
    ensures x == c[n - 1]
  {
    hide BlockOk;
    var p :| PathTo(BlockGraph(g), {root}, p, x);
    assert LinkAt(g, rank, side, c, n);
    ExtendPath(BlockGraph(g), {root}, p, x, c[n]);
    var q := p + [c[n]];
    assert Dominates(BlockGraph(g), {root}, c[0], c[n]);
    var i :| 0 <= i < |q| && q[i] == c[0];
    DownTheChain(g, rank, root, side, c, q, i, 0, n);
  }

  // ----- the new graph -----

  function Retarget(b: Block, from: int, to: int): Block {
    b.(jt := if b.jt == from then to else b.jt, jf := if b.jf == from then to else b.jf)
  }

  /** The block at index x after the last block of c has been moved in front of c[k]. */
  ghost function PulledBlock(g: Graph, rank: map<int, nat>, side: bool, c: seq<int>, k: nat, x: int): Block
    requires 0 <= x < |g| && k + 1 < |c| && forall i :: 0 <= i < |c| ==> 0 <= c[i] < |g|
  {
    var top, last, pull := c[k], c[|c| - 2], c[|c| - 1];
    if x == pull then WithArm(g[x], !side, top)
    else if x == last then WithArm(g[x], !side, Arm(g[pull], !side))
    else if x in rank && !Leaf(g[x]) then Retarget(g[x], top, pull)
    else g[x]
  }

  ghost predicate IsPulled(g: Graph, g': Graph, rank: map<int, nat>, side: bool, c: seq<int>, k: nat) {
    && k + 1 < |c| && (forall i :: 0 <= i < |c| ==> 0 <= c[i] < |g|)
    && |g'| == |g| && forall x :: 0 <= x < |g| ==> g'[x] == PulledBlock(g, rank, side, c, k, x)
  }

  /** Room for one block between any two levels. */
  ghost function PulledRank(rank: map<int, nat>, top: int, pull: int): map<int, nat>
    requires top in rank
  {
    map b | b in rank :: if b == pull then 2 * rank[top] + 1 else 2 * rank[b]
  }

  /** Facts about a chain that the two lemmas below need, one block at a time. */
  lemma ChainBlock(g: Graph, rank: map<int, nat>, root: int, side: bool, c: seq<int>, i: nat)
    requires Ranked(g, rank) && Chain(g, rank, root, side, c) && i < |c|
    ensures c[i] in rank && 0 <= c[i] < |g| && 0 <= c[0] < |g| && !Leaf(g[c[i]])
    ensures Arm(g[c[i]], side) == Arm(g[c[0]], side)
    ensures i + 1 < |c| ==> Arm(g[c[i]], !side) == c[i + 1]
    ensures Arm(g[c[i]], !side) in rank && Arm(g[c[i]], !side) >= 0 && rank[Arm(g[c[i]], !side)] < rank[c[i]]
    ensures Arm(g[c[0]], side) in rank && Arm(g[c[0]], side) >= 0 && rank[Arm(g[c[0]], side)] < rank[c[i]]
  {
    hide BlockOk, Dominates;
    assert LinkAt(g, rank, side, c, i);
    assert LinkAt(g, rank, side, c, 0);
  }

  /** How the successors of one block change.  No edge other than the one from its predecessor
      in the chain led to the block that is moved. */
  lemma PulledStep(g: Graph, g': Graph, rank: map<int, nat>, root: int, side: bool, c: seq<int>, k: nat, x: int)
    requires Rooted(g, rank, root) && Chain(g, rank, root, side, c) && k + 1 < |c|
    requires IsPulled(g, g', rank, side, c, k) && x in rank
    ensures 0 <= x < |g| == |g'| && g'[x] == g[x].(jt := g'[x].jt, jf := g'[x].jf) && (Leaf(g'[x]) <==> Leaf(g[x]))
    ensures Leaf(g[x]) ==> g'[x] == g[x]
    ensures x == c[|c| - 1] ==> Arm(g'[x], side) == Arm(g[c[0]], side) && Arm(g'[x], !side) == c[k]
    ensures x == c[|c| - 2] ==> Arm(g'[x], side) == Arm(g[c[0]], side) && Arm(g'[x], !side) == Arm(g[c[|c| - 1]], !side)
    ensures !Leaf(g[x]) && x != c[|c| - 1] && x != c[|c| - 2] ==>
      && g[x].jt != c[|c| - 1] && g'[x].jt == (if g[x].jt == c[k] then c[|c| - 1] else g[x].jt)
      && g[x].jf != c[|c| - 1] && g'[x].jf == (if g[x].jf == c[k] then c[|c| - 1] else g[x].jf)
  {
    hide Chain, Ranked, Reachable, BlockGraph;
    var n := |c| - 1;
    RankedIn(g, rank, x);
    ChainBlock(g, rank, root, side, c, k);
    ChainBlock(g, rank, root, side, c, n);
    ChainBlock(g, rank, root, side, c, n - 1);
    ChainFalls(g, rank, root, side, c, n - 1, n);
    if x != c[n - 1] && !Leaf(g[x]) && (g[x].jt == c[n] || g[x].jf == c[n]) {
      SingleEntry(g, rank, root, side, c, n, x);
    }
  }

  lemma RankedIn(g: Graph, rank: map<int, nat>, x: int)
    requires Ranked(g, rank) && x in rank
    ensures 0 <= x < |g|
    ensures if Leaf(g[x]) then g[x].jf < 0
      else
        g[x].jt in rank && g[x].jt >= 0 && rank[g[x].jt] < rank[x] &&
        g[x].jf in rank && g[x].jf >= 0 && rank[g[x].jf] < rank[x]
  {
  }

  lemma SameBlockOk(b: Block, b': Block)
    requires BlockOk(b) && b' == b.(jt := b'.jt, jf := b'.jf) && (Leaf(b') <==> Leaf(b)) && (Leaf(b) ==> b' == b)
    ensures BlockOk(b')
  {
  }

  /** The new graph is acyclic. */
  lemma PulledRanked(g: Graph, g': Graph, rank: map<int, nat>, root: int, side: bool, c: seq<int>, k: nat)
    requires Rooted(g, rank, root) && Chain(g, rank, root, side, c) && k + 1 < |c| && c[k] in rank
    requires IsPulled(g, g', rank, side, c, k)
    ensures Ranked(g', PulledRank(rank, c[k], c[|c| - 1]))
  {
    hide Chain, BlockOk, Rooted, IsPulled;
    var n := |c| - 1;
    var rank' := PulledRank(rank, c[k], c[n]);
    assert Ranked(g, rank) by { RootedRanked(g, rank, root); }
    ChainBlock(g, rank, root, side, c, k);
    ChainBlock(g, rank, root, side, c, n);
    ChainFalls(g, rank, root, side, c, k, n);
    ChainFalls(g, rank, root, side, c, k, n - 1);
    ChainFalls(g, rank, root, side, c, n - 1, n);
    forall x | x in rank'
      ensures 0 <= x < |g'| && BlockOk(g'[x])
      ensures !Leaf(g'[x]) ==>
        && g'[x].jt in rank' && rank'[g'[x].jt] < rank'[x]
        && g'[x].jf in rank' && rank'[g'[x].jf] < rank'[x]
    {
      PulledStep(g, g', rank, root, side, c, k, x);
      SameBlockOk(g[x], g'[x]);
    }
  }

  lemma RootedRanked(g: Graph, rank: map<int, nat>, root: int)
    requires Rooted(g, rank, root)
    ensures Ranked(g, rank) && root in rank
  {
  }

  // ----- the result -----

  /** Some block of c[i..j] leaves the chain. */
  ghost predicate Leaves(t: Tests, side: bool, c: seq<int>, i: nat, j: nat)
    requires j <= |c| && forall l :: 0 <= l < |c| ==> 0 <= c[l] < |t|
    decreases j - i
  {
    i < j && (t[c[i]] == side || Leaves(t, side, c, i + 1, j))
  }

  lemma {:induction false} LeavesLast(t: Tests, side: bool, c: seq<int>, i: nat, j: nat)
    requires i <= j < |c| && forall l :: 0 <= l < |c| ==> 0 <= c[l] < |t|
    ensures Leaves(t, side, c, i, j + 1) <==> Leaves(t, side, c, i, j) || t[c[j]] == side
    decreases j - i
  {
    if i < j { LeavesLast(t, side, c, i + 1, j); }
  }

  /** A piece of a graph that is a chain from c[i] to c[j-1], with exit J on the one side and N
      behind the last block. */
  ghost predicate Segment(g: Graph, side: bool, c: seq<int>, k: nat, j: nat, J: int, N: int) {
    && k < j <= |c|
    && (forall i :: 0 <= i < |c| ==> 0 <= c[i] < |g|)
    && forall i :: k <= i < j ==> SegmentAt(g, side, c, j, J, N, i)
  }

  ghost predicate SegmentAt(g: Graph, side: bool, c: seq<int>, j: nat, J: int, N: int, i: nat)
    requires i < j <= |c| && 0 <= c[i] < |g|
  {
    !Leaf(g[c[i]]) && Arm(g[c[i]], side) == J && Arm(g[c[i]], !side) == if i + 1 < j then c[i + 1] else N
  }

  lemma {:induction false} SegmentEnd(g: Graph, rank: map<int, nat>, t: Tests, side: bool, c: seq<int>, k: nat,
      j: nat, J: int, N: int)
    requires Ranked(g, rank) && |t| == |g| && Segment(g, side, c, k, j, J, N) && c[k] in rank && J in rank && N in rank
    ensures End(g, rank, t, c[k]) == if Leaves(t, side, c, k, j) then End(g, rank, t, J) else End(g, rank, t, N)
    decreases j - k
  {
    hide BlockOk;
    assert SegmentAt(g, side, c, j, J, N, k);
    if k + 1 < j {
      SegmentEnd(g, rank, t, side, c, k + 1, j, J, N);
    }
  }

  lemma OldSegment(g: Graph, rank: map<int, nat>, root: int, side: bool, c: seq<int>, k: nat)
    requires Ranked(g, rank) && Chain(g, rank, root, side, c) && k + 1 < |c| && 0 <= c[0] < |g| && 0 <= c[|c| - 1] < |g|
    ensures Segment(g, side, c, k, |c|, Arm(g[c[0]], side), Arm(g[c[|c| - 1]], !side))
  {
    hide Chain, Ranked;
    forall i | 0 <= i < |c|
      ensures 0 <= c[i] < |g| && SegmentAt(g, side, c, |c|, Arm(g[c[0]], side), Arm(g[c[|c| - 1]], !side), i)
    {
      ChainBlock(g, rank, root, side, c, i);
    }
  }

  lemma NewSegmentAt(g: Graph, g': Graph, rank: map<int, nat>, root: int, side: bool, c: seq<int>, k: nat, i: nat)
    requires Rooted(g, rank, root) && Chain(g, rank, root, side, c) && 0 <= c[0] < |g| && 0 <= c[|c| - 1] < |g|
    requires IsPulled(g, g', rank, side, c, k) && k <= i < |c| - 1
    ensures 0 <= c[i] < |g'| && SegmentAt(g', side, c, |c| - 1, Arm(g[c[0]], side), Arm(g[c[|c| - 1]], !side), i)
  {
    hide Chain, Rooted, IsPulled, Ranked;
    RootedRanked(g, rank, root);
    var n := |c| - 1;
    ChainBlock(g, rank, root, side, c, i);
    PulledStep(g, g', rank, root, side, c, k, c[i]);
    ChainBlock(g, rank, root, side, c, k);
    ChainFalls(g, rank, root, side, c, i, n);
    if i < n - 1 {
      ChainFalls(g, rank, root, side, c, i, n - 1);
      ChainFalls(g, rank, root, side, c, k, i + 1);
    }
  }

  lemma NewSegment(g: Graph, g': Graph, rank: map<int, nat>, root: int, side: bool, c: seq<int>, k: nat)
    requires Rooted(g, rank, root) && Chain(g, rank, root, side, c) && k + 1 < |c| && 0 <= c[0] < |g|
    requires 0 <= c[|c| - 1] < |g|
    requires IsPulled(g, g', rank, side, c, k)
    ensures Segment(g', side, c, k, |c| - 1, Arm(g[c[0]], side), Arm(g[c[|c| - 1]], !side))
  {
    hide Chain, Rooted, Ranked, PulledBlock;
    var J, N, n := Arm(g[c[0]], side), Arm(g[c[|c| - 1]], !side), |c| - 1;
    forall i | k <= i < n
      ensures 0 <= c[i] < |g'| && SegmentAt(g', side, c, n, J, N, i)
    {
      NewSegmentAt(g, g', rank, root, side, c, k, i);
    }
  }

  /** Entering at the moved block now is like entering at c[k] before. */
  lemma PulledEntry(g: Graph, g': Graph, rank: map<int, nat>, root: int, t: Tests, side: bool, c: seq<int>, k: nat)
    requires Rooted(g, rank, root) && Chain(g, rank, root, side, c) && k + 1 < |c| && c[k] in rank && |t| == |g| == |g'|
    requires IsPulled(g, g', rank, side, c, k) && Ranked(g', PulledRank(rank, c[k], c[|c| - 1]))
    requires 0 <= c[0] < |g| && 0 <= c[|c| - 1] < |g|
    requires var rank', J, N := PulledRank(rank, c[k], c[|c| - 1]), Arm(g[c[0]], side), Arm(g[c[|c| - 1]], !side);
      && J in rank && N in rank && c[|c| - 1] in rank
      && End(g', rank', t, J) == End(g, rank, t, J) && End(g', rank', t, N) == End(g, rank, t, N)
    ensures End(g', PulledRank(rank, c[k], c[|c| - 1]), t, c[|c| - 1]) == End(g, rank, t, c[k])
  {
    hide Chain, Rooted, IsPulled, BlockOk;
    RootedRanked(g, rank, root);
    var n, rank', J, N := |c| - 1, PulledRank(rank, c[k], c[|c| - 1]), Arm(g[c[0]], side), Arm(g[c[|c| - 1]], !side);
    OldSegment(g, rank, root, side, c, k);
    NewSegment(g, g', rank, root, side, c, k);
    SegmentEnd(g, rank, t, side, c, k, |c|, J, N);
    SegmentEnd(g', rank', t, side, c, k, n, J, N);
    LeavesLast(t, side, c, k, n);
    PulledStep(g, g', rank, root, side, c, k, c[n]);
    ChainBlock(g, rank, root, side, c, n);
    assert Goto(g', t, c[n]) == if t[c[n]] == side then J else c[k];
  }

  /** A block that is not entered through the moved part gives the same result. */
  lemma {:induction false} PulledEnds(g: Graph, g': Graph, rank: map<int, nat>, root: int, t: Tests, side: bool,
      c: seq<int>, k: nat, x: int)
    requires Rooted(g, rank, root) && Chain(g, rank, root, side, c) && k + 1 < |c| && c[k] in rank && |t| == |g| == |g'|
    requires IsPulled(g, g', rank, side, c, k) && Ranked(g', PulledRank(rank, c[k], c[|c| - 1]))
    requires x in rank && x !in c[k..]
    ensures End(g', PulledRank(rank, c[k], c[|c| - 1]), t, x) == End(g, rank, t, x)
    decreases rank[x]
  {
    hide Chain, Rooted, IsPulled, BlockOk;
    RootedRanked(g, rank, root);
    var n := |c| - 1;
    PulledStep(g, g', rank, root, side, c, k, x);
    if !Leaf(g[x]) {
      var d := Goto(g, t, x);
      assert c[n] in c[k..] && c[n - 1] in c[k..];
      if d == c[k] {
        Exits(g, rank, root, side, c, k);
        PulledEnds(g, g', rank, root, t, side, c, k, Arm(g[c[0]], side));
        PulledEnds(g, g', rank, root, t, side, c, k, Arm(g[c[n]], !side));
        PulledEntry(g, g', rank, root, t, side, c, k);
      } else {
        if d in c[k..] {
          var i :| 0 <= i < |c[k..]| && c[k..][i] == d;
          assert c[k..][i - 1] == c[k + i - 1];
          SingleEntry(g, rank, root, side, c, k + i, x);
          assert false;
        }
        PulledEnds(g, g', rank, root, t, side, c, k, d);
      }
    }
  }

  /** Both exits lie below the chain. */
  lemma Exits(g: Graph, rank: map<int, nat>, root: int, side: bool, c: seq<int>, k: nat)
    requires Ranked(g, rank) && Chain(g, rank, root, side, c) && k + 1 < |c|
    ensures 0 <= c[0] < |g| && 0 <= c[|c| - 1] < |g| && c[|c| - 1] in rank && c[k] in rank
    ensures var J, N := Arm(g[c[0]], side), Arm(g[c[|c| - 1]], !side);
      J in rank && N in rank && J !in c[k..] && N !in c[k..] && rank[J] < rank[c[k]] && rank[N] < rank[c[k]]
  {
    hide Chain, Ranked;
    ChainBlock(g, rank, root, side, c, |c| - 1);
    ChainBlock(g, rank, root, side, c, k);
    ChainFalls(g, rank, root, side, c, k, |c| - 1);
    var J, N := Arm(g[c[0]], side), Arm(g[c[|c| - 1]], !side);
    if J in c[k..] || N in c[k..] {
      var i :| 0 <= i < |c[k..]| && (c[k..][i] == J || c[k..][i] == N);
      ChainFalls(g, rank, root, side, c, k + i, |c| - 1);
      assert false;
    }
  }

  // ----- the pass -----

  /** The list of edges that lead to b, each once. */
  ghost predicate ExactIn(g: Graph, rank: map<int, nat>, b: int, l: seq<int>) {
    && Distinct(l)
    && forall e :: e in l <==> 0 <= e < 2 * |g| && Pred(g, e) in rank && !Leaf(g[Pred(g, e)]) && EdgeSucc(g, e) == b
  }

  ghost predicate ExactDom(g: Graph, rank: map<int, nat>, root: int, dom: seq<set<int>>) {
    && |dom| == |g|
    && forall b, d :: b in rank && 0 <= b < |g| ==> (d in dom[b] <==> Dominates(BlockGraph(g), {root}, d, b))
  }

  /** What c is while a chain is being followed: not begun, or next is its next block. */
  ghost predicate Following(g: Graph, rank: map<int, nat>, root: int, side: bool, b: int, c: seq<int>, next: int) {
    if c == [] then next == b
    else c[0] == b && Chain(g, rank, root, side, c) && 0 <= c[|c| - 1] < |g| && Arm(g[c[|c| - 1]], !side) == next
  }

  lemma FollowNext(g: Graph, rank: map<int, nat>, root: int, side: bool, b: int, c: seq<int>, x: int)
    requires Ranked(g, rank) && b in rank && 0 <= b < |g| && Following(g, rank, root, side, b, c, x)
    requires 0 <= x < |g| && x in rank && !Leaf(g[x]) && Arm(g[x], side) == Arm(g[b], side)
    requires Dominates(BlockGraph(g), {root}, b, x)
    ensures Chain(g, rank, root, side, c + [x]) && Following(g, rank, root, side, b, c + [x], Arm(g[x], !side))
    ensures Arm(g[x], !side) in rank && rank[Arm(g[x], !side)] < rank[x]
  {
    hide Dominates, BlockOk;
    var c' := c + [x];
    forall i | 0 <= i < |c'| ensures LinkAt(g, rank, side, c', i) && Dominates(BlockGraph(g), {root}, c'[0], c'[i]) {
      if i < |c| { assert LinkAt(g, rank, side, c, i); }
    }
  }

  /** A block that some reachable block leads to is not the root. */
  lemma RootFirst(g: Graph, rank: map<int, nat>, root: int, x: int)
    requires Rooted(g, rank, root) && x in rank && !Leaf(g[x])
    ensures g[x].jt != root && g[x].jf != root
  {
    hide BlockOk;
    var p :| PathTo(BlockGraph(g), {root}, p, x);
    if |p| > 1 { PathFalls(g, rank, root, p, 0, |p| - 1); }
  }

  lemma RootOutside(g: Graph, rank: map<int, nat>, root: int, side: bool, c: seq<int>, k: nat, x: int)
    requires Rooted(g, rank, root) && Chain(g, rank, root, side, c) && k < |c|
    requires x in rank && !Leaf(g[x]) && (g[x].jt == c[0] || g[x].jf == c[0])
    ensures root !in c[k..]
  {
    hide Chain, Rooted, Ranked;
    RootedRanked(g, rank, root);
    if root in c[k..] {
      var i :| 0 <= i < |c[k..]| && c[k..][i] == root;
      if k + i == 0 {
        RootFirst(g, rank, root, x);
      } else {
        ChainBlock(g, rank, root, side, c, k + i - 1);
        RootFirst(g, rank, root, c[k + i - 1]);
      }
      assert false;
    }
  }

  /** A block of which the true edge (t) and the false edge (f) have been redirected: the first
      of two parallel edges to be redirected moves jt, the second jf. */
  function Stage(blk: Block, t: bool, f: bool, b: int, pull: int): Block {
    blk.(jt := if blk.jt == b && (t || f) then pull else blk.jt,
         jf := if blk.jf == b && (if blk.jt == b then t && f else f) then pull else blk.jf)
  }

  /** Edge e leads to b; l holds it and, if it also leads to b, the other edge of its block. */
  ghost predicate Listed(g: Graph, l: set<int>, b: int, e: int) {
    && 0 <= e < 2 * |g|
    && (g[Pred(g, e)].jt == b <==> Pred(g, e) in l)
    && (g[Pred(g, e)].jf == b <==> |g| + Pred(g, e) in l)
  }

  ghost predicate Staged(g0: Graph, g: Graph, l: set<int>, b: int, pull: int) {
    && |g| == |g0|
    && forall x :: 0 <= x < |g| ==> g[x] == Stage(g0[x], x in l, |g| + x in l, b, pull)
  }

  lemma StageNext(g0: Graph, g: Graph, l: set<int>, some: set<int>, e: int, b: int, pull: int)
    requires Staged(g0, g, some, b, pull) && some <= l && e in l && e !in some && Listed(g0, l, b, e) && pull != b
    ensures var x := Pred(g, e);
      Staged(g0, g[x := if g[x].jt == b then g[x].(jt := pull) else g[x].(jf := pull)], some + {e}, b, pull)
  {
  }

  /** The last block of the chain unhooked and put in front of top. */
  function Cut(g: Graph, side: bool, prev: int, pull: int, top: int): (g': Graph)
    requires 0 <= prev < |g| && 0 <= pull < |g|
  {
    g[prev := WithArm(g[prev], !side, Arm(g[pull], !side))][pull := WithArm(g[pull], !side, top)]
  }

  /** Blocks that lead to b lie above b, so they are not in the chain. */
  lemma AboveChain(g: Graph, rank: map<int, nat>, root: int, side: bool, c: seq<int>, l: seq<int>, e: int, i: nat)
    requires Ranked(g, rank) && Chain(g, rank, root, side, c) && ExactIn(g, rank, c[0], l) && e in l && i < |c|
    ensures 0 <= e < 2 * |g| && Pred(g, e) != c[i] && Pred(g, e) in rank
  {
    hide Chain, BlockOk;
    ChainFalls(g, rank, root, side, c, 0, i);
  }

  lemma CutListed(g: Graph, rank: map<int, nat>, root: int, side: bool, c: seq<int>, l: seq<int>, e: int)
    requires Ranked(g, rank) && Chain(g, rank, root, side, c) && |c| > 1 && ExactIn(g, rank, c[0], l) && e in l
    requires 0 <= c[|c| - 2] < |g| && 0 <= c[|c| - 1] < |g|
    ensures Listed(Cut(g, side, c[|c| - 2], c[|c| - 1], c[0]), Elems(l), c[0], e)
  {
    hide Chain, Ranked;
    AboveChain(g, rank, root, side, c, l, e, |c| - 2);
    AboveChain(g, rank, root, side, c, l, e, |c| - 1);
    var x := Pred(g, e);
    assert x in l <==> g[x].jt == c[0];
    assert |g| + x in l <==> g[x].jf == c[0];
  }

  /** Moving a block to the top of the chain. */
  lemma TopPulled(g: Graph, g': Graph, rank: map<int, nat>, root: int, side: bool, c: seq<int>, l: seq<int>)
    requires Ranked(g, rank) && Chain(g, rank, root, side, c) && |c| > 1 && ExactIn(g, rank, c[0], l)
    requires 0 <= c[|c| - 2] < |g| && 0 <= c[|c| - 1] < |g|
    requires Staged(Cut(g, side, c[|c| - 2], c[|c| - 1], c[0]), g', Elems(l), c[0], c[|c| - 1])
    ensures IsPulled(g, g', rank, side, c, 0)
  {
    hide Chain, Ranked, LinkAt, Distinct;
    forall i | 0 <= i < |c| ensures 0 <= c[i] < |g| { ChainBlock(g, rank, root, side, c, i); }
    var b, last, pull := c[0], c[|c| - 2], c[|c| - 1];
    ChainFalls(g, rank, root, side, c, |c| - 2, |c| - 1);
    forall x | 0 <= x < |g| ensures g'[x] == PulledBlock(g, rank, side, c, 0, x) {
      TopPulledAt(g, g', rank, root, side, c, l, x);
    }
  }

  lemma TopPulledAt(g: Graph, g': Graph, rank: map<int, nat>, root: int, side: bool, c: seq<int>, l: seq<int>, x: int)
    requires Ranked(g, rank) && Chain(g, rank, root, side, c) && |c| > 1 && ExactIn(g, rank, c[0], l) && 0 <= x < |g|
    requires forall i :: 0 <= i < |c| ==> 0 <= c[i] < |g|
    requires Staged(Cut(g, side, c[|c| - 2], c[|c| - 1], c[0]), g', Elems(l), c[0], c[|c| - 1])
    ensures g'[x] == PulledBlock(g, rank, side, c, 0, x)
  {
    hide Chain, Ranked, LinkAt, Distinct;
    ChainFalls(g, rank, root, side, c, |c| - 2, |c| - 1);
    var n := |g|;
    if x in l {
      AboveChain(g, rank, root, side, c, l, x, |c| - 2);
      AboveChain(g, rank, root, side, c, l, x, |c| - 1);
    }
    if n + x in l {
      AboveChain(g, rank, root, side, c, l, n + x, |c| - 2);
      AboveChain(g, rank, root, side, c, l, n + x, |c| - 1);
    }
    assert x in l <==> x in rank && !Leaf(g[x]) && g[x].jt == c[0];
    assert n + x in l <==> x in rank && !Leaf(g[x]) && g[x].jf == c[0];
    assert Pred(g, x) == x && Pred(g, n + x) == x;
    var h := Cut(g, side, c[|c| - 2], c[|c| - 1], c[0]);
    assert |h| == n && |g'| == n;
    assert g'[x] == Stage(h[x], x in Elems(l), n + x in Elems(l), c[0], c[|c| - 1]);
    assert (x in Elems(l) <==> x in l) && (n + x in Elems(l) <==> n + x in l);
    if x == c[|c| - 1] || x == c[|c| - 2] {
      assert g'[x] == h[x];
    } else {
      assert h[x] == g[x];
    }
  }

  /** Moving a block inside the chain: only its new predecessor leads to the place. */
  lemma InnerPulled(g: Graph, g': Graph, rank: map<int, nat>, root: int, side: bool, c: seq<int>, k: nat)
    requires Rooted(g, rank, root) && Chain(g, rank, root, side, c) && 0 < k < |c| - 1
    requires forall i :: 0 <= i < |c| ==> 0 <= c[i] < |g|
    requires var h := Cut(g, side, c[|c| - 2], c[|c| - 1], c[k]);
      g' == h[c[k - 1] := WithArm(h[c[k - 1]], !side, c[|c| - 1])]
    ensures IsPulled(g, g', rank, side, c, k)
  {
    hide Chain, Ranked, LinkAt, Rooted;
    RootedRanked(g, rank, root);
    ChainFalls(g, rank, root, side, c, k - 1, k);
    ChainFalls(g, rank, root, side, c, k - 1, |c| - 1);
    ChainFalls(g, rank, root, side, c, k - 1, |c| - 2);
    ChainFalls(g, rank, root, side, c, |c| - 2, |c| - 1);
    ChainBlock(g, rank, root, side, c, k - 1);
    ChainBlock(g, rank, root, side, c, k);
    forall x | 0 <= x < |g| ensures g'[x] == PulledBlock(g, rank, side, c, k, x) {
      if x in rank && !Leaf(g[x]) && (g[x].jt == c[k] || g[x].jf == c[k]) {
        SingleEntry(g, rank, root, side, c, k, x);
      }
    }
  }

  /** The blocks are the same except for their jumps. */
  ghost predicate OnlyJumps(g: Graph, g': Graph, rank: map<int, nat>) {
    forall b :: b in rank ==>
      0 <= b < |g| == |g'| && g'[b] == g[b].(jt := g'[b].jt, jf := g'[b].jf) && (Leaf(g'[b]) <==> Leaf(g[b]))
  }

  /** Both graphs lead to the same leaf, whatever the outcomes of the tests. */
  ghost predicate SameResults(g: Graph, g': Graph, rank: map<int, nat>, rank': map<int, nat>, root: int)
    requires Ranked(g, rank) && Ranked(g', rank') && root in rank && root in rank'
  {
    |g'| == |g| && forall t: Tests | |t| == |g| :: End(g', rank', t, root) == End(g, rank, t, root)
  }

  /** One step keeps the graph acyclic and the leaf that every combination of test outcomes
      leads to. */
  lemma PulledSame(g: Graph, g': Graph, rank: map<int, nat>, root: int, side: bool, c: seq<int>, k: nat, x: int)
    requires Rooted(g, rank, root) && Chain(g, rank, root, side, c) && k + 1 < |c| && c[k] in rank
    requires IsPulled(g, g', rank, side, c, k)
    requires x in rank && !Leaf(g[x]) && (g[x].jt == c[0] || g[x].jf == c[0])
    ensures var rank' := PulledRank(rank, c[k], c[|c| - 1]);
      Ranked(g', rank') && rank'.Keys == rank.Keys && SameResults(g, g', rank, rank', root)
    ensures g' != g
    ensures OnlyJumps(g, g', rank)
  {
    hide Chain, Rooted, Ranked, IsPulled, End;
    RootedRanked(g, rank, root);
    PulledRanked(g, g', rank, root, side, c, k);
    RootOutside(g, rank, root, side, c, k, x);
    var rank' := PulledRank(rank, c[k], c[|c| - 1]);
    forall b | b in rank
      ensures 0 <= b < |g| == |g'| && g'[b] == g[b].(jt := g'[b].jt, jf := g'[b].jf) && (Leaf(g'[b]) <==> Leaf(g[b]))
    {
      PulledStep(g, g', rank, root, side, c, k, b);
    }
    forall t: Tests | |t| == |g| ensures End(g', rank', t, root) == End(g, rank, t, root) {
      PulledEnds(g, g', rank, root, t, side, c, k, root);
    }
    Exits(g, rank, root, side, c, k);
    ChainFalls(g, rank, root, side, c, k, |c| - 1);
    PulledStep(g, g', rank, root, side, c, k, c[|c| - 1]);
  }

  /** What SameResults means for the machine, on packets on which every test is defined. */
  lemma PulledRuns(g: Graph, g': Graph, rank: map<int, nat>, rank': map<int, nat>, root: int, p: Packet, r: Regs)
    requires Ranked(g, rank) && Ranked(g', rank') && root in rank && rank'.Keys == rank.Keys
    requires SameResults(g, g', rank, rank', root)
    requires OnlyJumps(g, g', rank) && |g'| == |g|
    requires AllSelfContained(g, rank) && forall b :: b in rank ==> Smooth(g[b], p)
    ensures Run(g', rank', p, root, r) == Run(g, rank, p, root, r) && Run(g, rank, p, root, r).Returned?
  {
    hide Ranked, Smooth, End, LiveBefore, BranchUses, AllGood, Decode, Run, Passes;
    RankedIn(g, rank, root);
    assert AllSelfContained(g', rank');
    forall b | b in rank ensures Smooth(g'[b], p) && Passes(g'[b], p) == Passes(g[b], p) {
      SameTests(g[b], g'[b], p);
    }
    RunFollowsTrace(g, rank, p, root, r);
    RunFollowsTrace(g', rank', p, root, r);
    var t := Outcomes(g, p);
    forall x | x in Trace(g, rank, t, root) ensures x in rank { OnTrace(g, rank, t, root, x); }
    forall x | x in Trace(g', rank', Outcomes(g', p), root) ensures x in rank
      { OnTrace(g', rank', Outcomes(g', p), root, x); }
    OutcomesOnly(g', rank', Outcomes(g', p), t, root);
  }

  lemma SameTests(b: Block, b': Block, p: Packet)
    requires b' == b.(jt := b'.jt, jf := b'.jf)
    ensures Smooth(b', p) == Smooth(b, p) && Passes(b', p) == Passes(b, p)
  {
  }

  /** Only the tests of blocks in the graph matter. */
  lemma {:induction false} OutcomesOnly(g: Graph, rank: map<int, nat>, t: Tests, t': Tests, x: int)
    requires Ranked(g, rank) && x in rank && |t| == |t'| == |g|
    requires forall b :: b in rank && 0 <= b < |g| ==> t[b] == t'[b]
    ensures End(g, rank, t, x) == End(g, rank, t', x)
    decreases rank[x]
  {
    hide BlockOk;
    if !Leaf(g[x]) { OutcomesOnly(g, rank, t, t', Goto(g, t, x)); }
  }

  // ----- which block is moved -----

  /** A chain has only one course. */
  lemma {:induction false} OneCourse(g: Graph, rank: map<int, nat>, root: int, side: bool, c: seq<int>, d: seq<int>,
      i: nat)
    requires Chain(g, rank, root, side, c) && Chain(g, rank, root, side, d) && c[0] == d[0] && i < |c| && i < |d|
    ensures c[i] == d[i]
  {
    hide Dominates;
    if i > 0 {
      OneCourse(g, rank, root, side, c, d, i - 1);
      assert LinkAt(g, rank, side, c, i - 1) && LinkAt(g, rank, side, d, i - 1);
    }
  }

  ghost predicate Extends(g: Graph, rank: map<int, nat>, root: int, side: bool, b: int, d: seq<int>, c: seq<int>) {
    Chain(g, rank, root, side, d) && d[0] == b && |c| <= |d| && d[..|c|] == c
  }

  /** From position n on, no block has (same) or has not (!same) the value. */
  ghost predicate NoneFrom(aval: seq<int>, d: seq<int>, n: nat, val: int, same: bool) {
    forall i :: n <= i < |d| ==> 0 <= d[i] < |aval| ==> (aval[d[i]] == val) != same
  }

  /** The next block of any longer chain. */
  lemma NextOfChain(g: Graph, rank: map<int, nat>, root: int, side: bool, b: int, c: seq<int>, x: int, d: seq<int>)
    requires Following(g, rank, root, side, b, c, x) && Chain(g, rank, root, side, d) && d[0] == b && 0 <= b < |g|
    requires |d| > |c|
    ensures x in rank && 0 <= x < |g| && Arm(g[x], side) == Arm(g[b], side) && Dominates(BlockGraph(g), {root}, b, x)
  {
    hide Dominates;
    assert LinkAt(g, rank, side, d, |c|);
    if c != [] {
      OneCourse(g, rank, root, side, c, d, |c| - 1);
      assert LinkAt(g, rank, side, d, |c| - 1);
    }
    assert d[|c|] == x;
    assert Dominates(BlockGraph(g), {root}, d[0], d[|c|]);
  }

  /** When the walk along the chain is stuck at x, no chain goes further. */
  lemma FollowStuck(g: Graph, rank: map<int, nat>, root: int, dom: seq<set<int>>, side: bool, b: int, c: seq<int>,
      x: int, d: seq<int>)
    requires Following(g, rank, root, side, b, c, x) && ExactDom(g, rank, root, dom) && Chain(g, rank, root, side, d)
    requires d[0] == b && 0 <= b < |g|
    requires x < 0 || (x < |g| == |dom| && (Arm(g[x], side) != Arm(g[b], side) || b !in dom[x]))
    ensures |d| <= |c|
  {
    hide Dominates, Following, Chain;
    if |d| > |c| {
      NextOfChain(g, rank, root, side, b, c, x, d);
      assert false;
    }
  }

  lemma StuckNone(g: Graph, rank: map<int, nat>, root: int, dom: seq<set<int>>, side: bool, b: int, c: seq<int>,
      c': seq<int>, x: int, aval: seq<int>, val: int, same: bool)
    requires Following(g, rank, root, side, b, c', x) && ExactDom(g, rank, root, dom) && 0 <= b < |g| == |aval|
    requires x < 0 || (x < |g| == |dom| && (Arm(g[x], side) != Arm(g[b], side) || b !in dom[x]))
    requires |c| <= |c'| && forall i :: |c| <= i < |c'| ==> 0 <= c'[i] < |g| && (aval[c'[i]] == val) != same
    ensures forall d :: Extends(g, rank, root, side, b, d, c) ==> NoneFrom(aval, d, |c|, val, same)
  {
    hide Chain, ExactDom;
    forall d | Extends(g, rank, root, side, b, d, c) ensures NoneFrom(aval, d, |c|, val, same) {
      FollowStuck(g, rank, root, dom, side, b, c', x, d);
      forall i | |c| <= i < |d| ensures d[i] == c'[i] { OneCourse(g, rank, root, side, c', d, i); }
    }
  }

  /** The chain c from b and the position k of the first block that loads another value than
      the predecessors of b, such that the last block of c is the next to load theirs. */
  ghost predicate Movable(g: Graph, rank: map<int, nat>, root: int, side: bool, b: int, aval: seq<int>, l: seq<int>,
      c: seq<int>, k: nat) {
    && |aval| == |g| && SamePreds(g, aval, l)
    && Chain(g, rank, root, side, c) && c[0] == b && k + 1 < |c| && (forall i :: 0 <= i < |c| ==> 0 <= c[i] < |g|)
    && var val := aval[Pred(g, l[0])];
       && (forall i :: 0 <= i < k ==> aval[c[i]] == val) && aval[c[k]] != val
       && (forall i :: k < i < |c| - 1 ==> aval[c[i]] != val) && aval[c[|c| - 1]] == val
  }

  /** All predecessors load the same value. */
  ghost predicate SamePreds(g: Graph, aval: seq<int>, l: seq<int>)
    requires |aval| == |g|
  {
    && l != [] && (forall i :: 0 <= i < |l| ==> 0 <= l[i] < 2 * |g|)
    && forall i :: 0 <= i < |l| ==> aval[Pred(g, l[i])] == aval[Pred(g, l[0])]
  }

  lemma NoOtherValue(g: Graph, rank: map<int, nat>, root: int, side: bool, b: int, aval: seq<int>, l: seq<int>)
    requires |aval| == |g| && SamePreds(g, aval, l)
    requires forall d :: Extends(g, rank, root, side, b, d, []) ==> NoneFrom(aval, d, 0, aval[Pred(g, l[0])], false)
    ensures forall c, k :: !Movable(g, rank, root, side, b, aval, l, c, k)
  {
    hide Movable, Extends, NoneFrom;
    forall c, k: nat ensures !Movable(g, rank, root, side, b, aval, l, c, k) {
      if Movable(g, rank, root, side, b, aval, l, c, k) {
        MovableDiffers(g, rank, root, side, b, aval, l, c, k);
        assert false;
      }
    }
  }

  lemma MovableDiffers(g: Graph, rank: map<int, nat>, root: int, side: bool, b: int, aval: seq<int>, l: seq<int>,
      c: seq<int>, k: nat)
    requires Movable(g, rank, root, side, b, aval, l, c, k)
    ensures Extends(g, rank, root, side, b, c, []) && !NoneFrom(aval, c, 0, aval[Pred(g, l[0])], false)
  {
    hide Chain;
    assert 0 <= c[k] < |aval|;
  }

  /** A movable chain goes through the first block that loads another value. */
  lemma MovableReturns(g: Graph, rank: map<int, nat>, root: int, side: bool, b: int, aval: seq<int>, l: seq<int>,
      c1: seq<int>, c: seq<int>, k: nat)
    requires |aval| == |g| && SamePreds(g, aval, l) && Chain(g, rank, root, side, c1) && c1[0] == b
    requires forall i :: 0 <= i < |c1| ==> 0 <= c1[i] < |g|
    requires forall i :: 0 <= i < |c1| - 1 ==> aval[c1[i]] == aval[Pred(g, l[0])]
    requires aval[c1[|c1| - 1]] != aval[Pred(g, l[0])]
    requires Movable(g, rank, root, side, b, aval, l, c, k)
    ensures Extends(g, rank, root, side, b, c, c1) && !NoneFrom(aval, c, |c1|, aval[Pred(g, l[0])], true)
  {
    hide LinkAt, Dominates;
    forall i | 0 <= i < |c1| && i < |c| ensures c[i] == c1[i] { OneCourse(g, rank, root, side, c, c1, i); }
    assert k == |c1| - 1;
    assert 0 <= c[|c| - 1] < |aval|;
  }

  lemma NoSameValue(g: Graph, rank: map<int, nat>, root: int, side: bool, b: int, aval: seq<int>, l: seq<int>,
      c1: seq<int>)
    requires |aval| == |g| && SamePreds(g, aval, l) && Chain(g, rank, root, side, c1) && c1[0] == b
    requires forall i :: 0 <= i < |c1| ==> 0 <= c1[i] < |g|
    requires forall i :: 0 <= i < |c1| - 1 ==> aval[c1[i]] == aval[Pred(g, l[0])]
    requires aval[c1[|c1| - 1]] != aval[Pred(g, l[0])]
    requires forall d :: Extends(g, rank, root, side, b, d, c1) ==> NoneFrom(aval, d, |c1|, aval[Pred(g, l[0])], true)
    ensures forall c, k :: !Movable(g, rank, root, side, b, aval, l, c, k)
  {
    hide Movable, Extends, NoneFrom, Chain;
    forall c, k: nat ensures !Movable(g, rank, root, side, b, aval, l, c, k) {
      if Movable(g, rank, root, side, b, aval, l, c, k) {
        MovableReturns(g, rank, root, side, b, aval, l, c1, c, k);
        assert false;
      }
    }
  }

  lemma NotSamePreds(g: Graph, rank: map<int, nat>, root: int, side: bool, b: int, aval: seq<int>, l: seq<int>)
    requires |aval| == |g|
    ensures !SamePreds(g, aval, l) ==> forall c, k :: !Movable(g, rank, root, side, b, aval, l, c, k)
  {
    hide Chain;
  }

  lemma FoundMovable(g: Graph, rank: map<int, nat>, root: int, side: bool, b: int, aval: seq<int>, l: seq<int>,
      c1: seq<int>, c: seq<int>)
    requires |aval| == |g| && SamePreds(g, aval, l) && Chain(g, rank, root, side, c) && c[0] == b && 0 < |c1| < |c|
    requires c[..|c1|] == c1
    requires forall i :: 0 <= i < |c| ==> 0 <= c[i] < |g|
    requires forall i :: 0 <= i < |c1| - 1 ==> 0 <= c1[i] < |g| && aval[c1[i]] == aval[Pred(g, l[0])]
    requires 0 <= c1[|c1| - 1] < |g| && aval[c1[|c1| - 1]] != aval[Pred(g, l[0])]
    requires aval[c[|c| - 1]] == aval[Pred(g, l[0])]
    requires forall i :: |c1| <= i < |c| - 1 ==> aval[c[i]] != aval[Pred(g, l[0])]
    ensures Movable(g, rank, root, side, b, aval, l, c, |c1| - 1)
    ensures c[|c1| - 1] == c1[|c1| - 1] && (|c1| > 1 ==> c[|c1| - 2] == c1[|c1| - 2])
  {
    hide Chain, SamePreds;
    forall i | 0 <= i < |c1| ensures c[i] == c1[i] { assert c[..|c1|][i] == c1[i]; }
  }

  lemma MovableParts(g: Graph, rank: map<int, nat>, root: int, side: bool, b: int, aval: seq<int>, l: seq<int>,
      c: seq<int>, k: nat)
    requires Movable(g, rank, root, side, b, aval, l, c, k)
    ensures Chain(g, rank, root, side, c) && k + 1 < |c| && c[0] == b && l != []
  {
    hide Chain;
  }

  class ChainOptimizer {
    var g: Graph
    var dom: seq<set<int>>
    var inEdges: seq<seq<int>>
    /** The value number of the accumulator at the end of each block. */
    var aval: seq<int>
    var done: bool
    const root: int
    ghost var rank: map<int, nat>

    constructor (g: Graph, dom: seq<set<int>>, inEdges: seq<seq<int>>, aval: seq<int>, root: int, ghost rank: map<int,
        nat>)
      ensures this.g == g && this.dom == dom && this.inEdges == inEdges && this.aval == aval
      ensures this.root == root && this.rank == rank && done
    {
      this.g, this.dom, this.inEdges, this.aval, this.root, this.rank, done := g, dom, inEdges, aval, root, rank, true;
    }

    ghost predicate Ready()
      reads this
    {
      && Rooted(g, rank, root) && |aval| == |inEdges| == |g| && ExactDom(g, rank, root, dom)
      && forall b :: b in rank && 0 <= b < |g| ==> ExactIn(g, rank, b, inEdges[b])
    }

    /** Follow the chain from block x on, up to the first block whose accumulator has
        (same) or has not (!same) the value val. */
    method Follow(b: int, side: bool, start: int, before: int, val: int, same: bool, ghost c: seq<int>)
        returns (found: bool, x: int, prev: int, ghost c': seq<int>)
      requires Ready() && b in rank && 0 <= b < |g| && !Leaf(g[b]) && start in rank
      requires Following(g, rank, root, side, b, c, start)
      requires before == if c == [] then NULL else c[|c| - 1]
      ensures found ==>
        && Chain(g, rank, root, side, c') && |c'| > |c| && c'[..|c|] == c && c'[0] == b
        && x == c'[|c'| - 1] && x in rank && 0 <= x < |g| && (aval[x] == val) == same
        && prev == (if |c'| == 1 then NULL else c'[|c'| - 2])
        && Following(g, rank, root, side, b, c', Arm(g[x], !side))
      ensures found ==> forall i :: |c| <= i < |c'| - 1 ==> 0 <= c'[i] < |g| && (aval[c'[i]] == val) != same
      ensures !found ==> forall d :: Extends(g, rank, root, side, b, d, c) ==> NoneFrom(aval, d, |c|, val, same)
    {
      hide Chain, Following, ExactIn, Rooted, ExactDom, Extends, NoneFrom;
      x, prev, c' := start, before, c;
      FollowFacts(g, rank, root, dom, start);
      ghost var fuel := rank[start] + 1;
      while true
        invariant x >= 0 ==> x in rank && x < |g| == |dom| && rank[x] < fuel
        invariant Following(g, rank, root, side, b, c', x) && |c'| >= |c| && c'[..|c|] == c
        invariant prev == if c' == [] then NULL else c'[|c'| - 1]
        invariant forall i :: |c| <= i < |c'| ==> 0 <= c'[i] < |g| && (aval[c'[i]] == val) != same
        decreases fuel
      {
        if x < 0 || Arm(g[x], side) != Arm(g[b], side) || b !in dom[x] {
          StuckNone(g, rank, root, dom, side, b, c, c', x, aval, val, same);
          return false, x, prev, c';
        }
        FollowStep(g, rank, root, dom, side, b, c', x);
        if (aval[x] == val) == same { return true, x, prev, c' + [x]; }
        fuel := rank[x];
        prev, c', x := x, c' + [x], Arm(g[x], !side);
      }
    }

    /** Every edge in the list of edges that led to b leads to pull instead. */
    method RedirectAll(l: seq<int>, b: int, pull: int)
      requires Distinct(l) && pull != b && forall e :: e in l ==> Listed(g, Elems(l), b, e)
      modifies this`g
      ensures Staged(old(g), g, Elems(l), b, pull)
    {
      ghost var some: set<int> := {};
      for i := 0 to |l|
        invariant Staged(old(g), g, some, b, pull) && some == Elems(l[..i])
      {
        assert l[i] in l && Listed(old(g), Elems(l), b, l[i]);
        NextListed(l, i);
        StageNext(old(g), g, Elems(l), some, l[i], b, pull);
        var x := Pred(g, l[i]);
        if g[x].jt == b {
          g := g[x := g[x].(jt := pull)];
        } else {
          g := g[x := g[x].(jf := pull)];
        }
        some := some + {l[i]};
      }
      assert l[..|l|] == l;
    }

    /** or_pullup (side) and and_pullup (!side) on block b: the block is moved that the chain
        and the values determine, if there is one. */
    method PullUp(b: int, side: bool) returns (ghost moved: bool, ghost c: seq<int>, ghost k: nat)
      requires Ready() && b in rank && 0 <= b < |g| && !Leaf(g[b])
      modifies this`g, this`done, this`rank
      ensures Ranked(old(g), old(rank)) && root in old(rank) && Ranked(g, rank) && rank.Keys == old(rank).Keys
      ensures SameResults(old(g), g, old(rank), rank, root)
      ensures OnlyJumps(old(g), g, old(rank))
      ensures done == (old(done) && g == old(g)) && (g != old(g) <==> moved)
      ensures moved ==>
        Movable(old(g), old(rank), root, side, b, aval, inEdges[b], c, k) && IsPulled(old(g), g, old(rank), side, c, k)
      ensures !moved ==> forall d, n :: !Movable(old(g), old(rank), root, side, b, aval, inEdges[b], d, n)
    {
      hide Rooted, Ranked, ExactDom, ExactIn, Chain, Movable, IsPulled, End, SameResults, OnlyJumps;
      Unchanged(g, rank, root);
      var diff, above, pull, prev, found;
      found, diff, above, pull, prev, c, k := FindMove(b, side);
      moved := found;
      if found {
        MovableParts(g, rank, root, side, b, aval, inEdges[b], c, k);
        Move(b, side, diff, above, pull, prev, c, k);
      }
    }

    /** The two searches along the chain. */
    method FindMove(b: int, side: bool)
        returns (found: bool, diff: int, above: int, pull: int, prev: int, ghost c: seq<int>, ghost k: nat)
      requires Ready() && b in rank && 0 <= b < |g| && !Leaf(g[b])
      ensures found ==>
        && Movable(g, rank, root, side, b, aval, inEdges[b], c, k) && k + 1 < |c| && c[k] == diff
        && c[|c| - 1] == pull && c[|c| - 2] == prev && above == if k == 0 then NULL else c[k - 1]
      ensures !found ==> forall d, n :: !Movable(g, rank, root, side, b, aval, inEdges[b], d, n)
    {
      hide Rooted, Ranked, ExactDom, ExactIn, Chain, Following, Movable, Extends, NoneFrom, Arm;
      found, diff, above, pull, prev, c, k := false, NULL, NULL, NULL, NULL, [], 0;
      Unchanged(g, rank, root);
      var l := inEdges[b];
      NotSamePreds(g, rank, root, side, b, aval, l);
      if l == [] { return; }
      InEdges(g, rank, b, l);
      var val := aval[Pred(g, l[0])];
      for i := 1 to |l|
        invariant forall j :: 0 <= j < i ==> aval[Pred(g, l[j])] == val
      {
        if val != aval[Pred(g, l[i])] { return; }
      }
      Begin(g, rank, root, side, b);
      ghost var c1;
      found, diff, above, c1 := Follow(b, side, b, NULL, val, false, []);
      if !found {
        NoOtherValue(g, rank, root, side, b, aval, l);
        return;
      }
      FollowFacts(g, rank, root, dom, diff);
      ChainNext(g, rank, root, side, c1);
      ChainIn(g, rank, root, side, c1);
      found, pull, prev, c := Follow(b, side, Arm(g[diff], !side), diff, val, true, c1);
      if !found {
        NoSameValue(g, rank, root, side, b, aval, l, c1);
        return;
      }
      k := |c1| - 1;
      ChainIn(g, rank, root, side, c);
      FoundMovable(g, rank, root, side, b, aval, l, c1, c);
    }

    method Unhook(side: bool, prev: int, pull: int, diff: int)
      requires 0 <= prev < |g| && 0 <= pull < |g| && prev != pull
      modifies this`g
      ensures g == Cut(old(g), side, prev, pull, diff) && |g| == |old(g)|
    {
      g := g[prev := WithArm(g[prev], !side, Arm(g[pull], !side))];
      g := g[pull := WithArm(g[pull], !side, diff)];
    }

    /** Take block pull out of the chain and put it in front of block diff. */
    method Move(b: int, side: bool, diff: int, above: int, pull: int, prev: int, ghost c: seq<int>, ghost k: nat)
      requires Ready() && b in rank && 0 <= b < |g| && inEdges[b] != []
      requires Chain(g, rank, root, side, c) && k + 1 < |c| && c[0] == b && c[k] == diff && c[|c| - 1] == pull
      requires c[|c| - 2] == prev
      requires above == if k == 0 then NULL else c[k - 1]
      modifies this`g, this`done, this`rank
      ensures Ranked(old(g), old(rank)) && root in old(rank) && Ranked(g, rank) && rank.Keys == old(rank).Keys
      ensures SameResults(old(g), g, old(rank), rank, root)
      ensures OnlyJumps(old(g), g, old(rank)) && IsPulled(old(g), g, old(rank), side, c, k)
      ensures !done && g != old(g)
    {
      hide Rooted, Ranked, ExactDom, ExactIn, Chain, IsPulled, End, Cut, Staged, Listed, PulledRank, Arm, WithArm,
        SameResults, Distinct, Elems, OnlyJumps;
      ghost var g0 := g;
      Unchanged(g, rank, root);
      InEdges(g, rank, b, inEdges[b]);
      ChainIn(g, rank, root, side, c);
      Unhook(side, prev, pull, diff);
      if above < 0 {
        ListedAll(g0, rank, root, side, c, inEdges[b]);
        RedirectAll(inEdges[b], b, pull);
        TopPulled(g0, g, rank, root, side, c, inEdges[b]);
      } else {
        g := g[above := WithArm(g[above], !side, pull)];
        InnerPulled(g0, g, rank, root, side, c, k);
      }
      PulledSame(g0, g, rank, root, side, c, k, Pred(g0, inEdges[b][0]));
      rank := PulledRank(rank, diff, pull);
      done := false;
    }
  }

  lemma NextListed(l: seq<int>, i: nat)
    requires Distinct(l) && i < |l|
    ensures l[i] in Elems(l) && l[i] !in Elems(l[..i]) && Elems(l[..i]) <= Elems(l)
    ensures Elems(l[..i + 1]) == Elems(l[..i]) + {l[i]}
  {
    assert l[..i + 1] == l[..i] + [l[i]];
  }

  lemma Unchanged(g: Graph, rank: map<int, nat>, root: int)
    requires Rooted(g, rank, root)
    ensures Ranked(g, rank) && root in rank && SameResults(g, g, rank, rank, root) && OnlyJumps(g, g, rank)
    ensures forall x :: x in rank ==> 0 <= x < |g|
  {
    hide BlockOk, Reachable, End;
  }

  lemma InEdges(g: Graph, rank: map<int, nat>, b: int, l: seq<int>)
    requires ExactIn(g, rank, b, l) && l != [] && forall x :: x in rank ==> 0 <= x < |g|
    ensures Distinct(l) && forall i :: 0 <= i < |l| ==> l[i] in l && 0 <= l[i] < 2 * |g|
    ensures var x := Pred(g, l[0]); x in rank && !Leaf(g[x]) && (g[x].jt == b || g[x].jf == b)
  {
    forall i | 0 <= i < |l| ensures l[i] in l && 0 <= l[i] < 2 * |g| {
      assert l[i] in l;
    }
    assert l[0] in l;
  }

  lemma Begin(g: Graph, rank: map<int, nat>, root: int, side: bool, b: int)
    ensures Following(g, rank, root, side, b, [], b)
  {
  }

  lemma ChainNext(g: Graph, rank: map<int, nat>, root: int, side: bool, c: seq<int>)
    requires |c| > 0 && Rooted(g, rank, root) && Chain(g, rank, root, side, c) && 0 <= c[|c| - 1] < |g|
    ensures Arm(g[c[|c| - 1]], !side) in rank
  {
    hide Rooted, Chain, Ranked;
    RootedRanked(g, rank, root);
    ChainBlock(g, rank, root, side, c, |c| - 1);
  }

  lemma ChainIn(g: Graph, rank: map<int, nat>, root: int, side: bool, c: seq<int>)
    requires Rooted(g, rank, root) && Chain(g, rank, root, side, c)
    ensures forall i :: 0 <= i < |c| ==> 0 <= c[i] < |g| && c[i] in rank
    ensures |c| > 1 ==> c[|c| - 1] != c[|c| - 2] && c[|c| - 1] != c[0]
  {
    hide Rooted, Chain, Ranked;
    RootedRanked(g, rank, root);
    forall i | 0 <= i < |c| ensures 0 <= c[i] < |g| && c[i] in rank { ChainBlock(g, rank, root, side, c, i); }
    if |c| > 1 {
      ChainFalls(g, rank, root, side, c, |c| - 2, |c| - 1);
      ChainFalls(g, rank, root, side, c, 0, |c| - 1);
    }
  }

  lemma ListedAll(g: Graph, rank: map<int, nat>, root: int, side: bool, c: seq<int>, l: seq<int>)
    requires Ranked(g, rank) && Chain(g, rank, root, side, c) && |c| > 1 && ExactIn(g, rank, c[0], l)
    requires 0 <= c[|c| - 2] < |g| && 0 <= c[|c| - 1] < |g|
    ensures forall e :: e in l ==> Listed(Cut(g, side, c[|c| - 2], c[|c| - 1], c[0]), Elems(l), c[0], e)
  {
    hide Ranked, Chain, ExactIn, Cut, Listed;
    forall e | e in l ensures Listed(Cut(g, side, c[|c| - 2], c[|c| - 1], c[0]), Elems(l), c[0], e) {
      CutListed(g, rank, root, side, c, l, e);
    }
  }

  lemma FollowFacts(g: Graph, rank: map<int, nat>, root: int, dom: seq<set<int>>, x: int)
    requires Rooted(g, rank, root) && ExactDom(g, rank, root, dom) && x in rank
    ensures 0 <= x < |g| == |dom|
  {
    hide BlockOk, Dominates;
  }

  lemma FollowStep(g: Graph, rank: map<int, nat>, root: int, dom: seq<set<int>>, side: bool, b: int, c: seq<int>,
      x: int)
    requires Rooted(g, rank, root) && ExactDom(g, rank, root, dom) && Following(g, rank, root, side, b, c, x)
    requires b in rank && 0 <= b < |g| && !Leaf(g[b]) && x in rank && 0 <= x < |g| == |dom|
    requires Arm(g[x], side) == Arm(g[b], side) && b in dom[x]
    ensures Chain(g, rank, root, side, c + [x]) && Following(g, rank, root, side, b, c + [x], Arm(g[x], !side))
    ensures (c + [x])[0] == b
    ensures var y := Arm(g[x], !side); y in rank && 0 <= y < |g| && rank[y] < rank[x]
  {
    hide Dominates, Chain, Ranked;
    ArmLeaf(g, rank, side, b, x);
    FollowNext(g, rank, root, side, b, c, x);
    RankedIn(g, rank, x);
  }

  /** A block with the same successor as b is no leaf. */
  lemma ArmLeaf(g: Graph, rank: map<int, nat>, side: bool, b: int, x: int)
    requires Ranked(g, rank) && b in rank && x in rank && !Leaf(g[b]) && Arm(g[x], side) == Arm(g[b], side)
    ensures !Leaf(g[x])
  {
    hide BlockOk;
    RankedIn(g, rank, b);
    RankedIn(g, rank, x);
  }
}
