/**
 Compiling boolean expressions by backpatching: backpatch, merge, gen_and, gen_or, gen_not
 and finish_parse of deps/libpcap/gencode.c.

 While an expression is being built it is known by its last block.  The exits that are
 still open are threaded through the jt/jf fields themselves: `sense` says which of the
 two fields of a block holds the link to the next block with an open exit.  The last
 block has both exits open, so flipping its `sense` switches between the list of open
 true exits and the list of open false exits.
 */
module Backpatch {
  import opened Basics
  import opened Machine
  import opened Flow
  import opened BoolExpr

  /** The code of one test: statements and a conditional branch. */
  datatype TestCode = TestCode(stmts: seq<Stmt>, br: Stmt)

  // ----- linked lists of open exits -----

  function Link(b: Block): int { if !b.sense then b.jt else b.jf }

  function SetLink(b: Block, target: int): Block {
    if !b.sense then b.(jt := target) else b.(jf := target)
  }

  ghost predicate Indices(g: Graph, ids: seq<int>) { forall k :: 0 <= k < |ids| ==> 0 <= ids[k] < |g| }

  function Nth(ids: seq<int>, k: nat): int { if k < |ids| then ids[k] else NULL }

  ghost predicate LinksOn(g: Graph, ids: seq<int>, k: nat)
    requires Indices(g, ids) && k < |ids|
  {
    Link(g[ids[k]]) == Nth(ids, k + 1)
  }

  /** The blocks `ids`, in this order, are the list that starts at block `list`. */
  ghost predicate Chain(g: Graph, list: int, ids: seq<int>) {
    && Indices(g, ids) && Distinct(ids)
    && list == Nth(ids, 0)
    && forall k :: 0 <= k < |ids| ==> LinksOn(g, ids, k)
  }

  // ----- a partly linked expression in the arena -----

  function OpenField(b: Block, l: Links, yes: bool): int { if l.jt == Out(yes) then b.jt else b.jf }

  ghost predicate ResolvedAt(g: Graph, s: seq<Links>, ns: seq<int>, i: nat)
    requires |s| == |ns| && Indices(g, ns) && GoodShape(s) && i < |s|
  {
    && (s[i].jt.To? ==> g[ns[i]].jt == ns[s[i].jt.pos])
    && (s[i].jf.To? ==> g[ns[i]].jf == ns[s[i].jf.pos])
  }

  /** The exits that the shape resolves are resolved. */
  ghost predicate Resolved(g: Graph, s: seq<Links>, ns: seq<int>)
    requires |s| == |ns| && Indices(g, ns) && GoodShape(s)
  {
    forall i :: 0 <= i < |s| ==> ResolvedAt(g, s, ns, i)
  }

  ghost predicate SenseAt(g: Graph, s: seq<Links>, ns: seq<int>, i: nat)
    requires |s| == |ns| && Indices(g, ns) && i < |s|
  {
    if i == |s| - 1 then s[i].jt == Out(!g[ns[i]].sense)
    else (s[i].jt.Out? ==> !g[ns[i]].sense) && (s[i].jf.Out? ==> g[ns[i]].sense)
  }

  /** `sense` points at the open exit; at the last block, at the open true exit. */
  ghost predicate Senses(g: Graph, s: seq<Links>, ns: seq<int>)
    requires |s| == |ns| && Indices(g, ns)
  {
    forall i :: 0 <= i < |s| ==> SenseAt(g, s, ns, i)
  }

  ghost predicate ThreadedAt(g: Graph, s: seq<Links>, ns: seq<int>, open: seq<nat>, yes: bool, k: nat)
    requires |s| == |ns| && Indices(g, ns) && OpenList(open, s, yes) && k < |open|
  {
    OpenField(g[ns[open[k]]], s[open[k]], yes) == if k + 1 < |open| then ns[open[k + 1]] else NULL
  }

  /** The open exits for one outcome are threaded in the order of `open`. */
  ghost predicate Threaded(g: Graph, s: seq<Links>, ns: seq<int>, open: seq<nat>, yes: bool)
    requires |s| == |ns| && Indices(g, ns) && OpenList(open, s, yes)
  {
    forall k :: 0 <= k < |open| ==> ThreadedAt(g, s, ns, open, yes, k)
  }

  ghost predicate Placed(g: Graph, tests: seq<TestCode>, ns: seq<int>)
    requires |tests| == |ns| && Indices(g, ns)
  {
    forall i :: 0 <= i < |ns| ==> g[ns[i]].stmts == tests[i].stmts && g[ns[i]].br == tests[i].br
  }

  ghost predicate GoodCode(s: seq<Links>, yes: seq<nat>, no: seq<nat>) {
    GoodShape(s) && OpenList(yes, s, true) && OpenList(no, s, false)
  }

  /** The blocks ns are linked as the shape s says, and b is the last of them. */
  ghost predicate Linked(g: Graph, s: seq<Links>, yes: seq<nat>, no: seq<nat>, ns: seq<int>, b: int) {
    && |ns| == |s| && Indices(g, ns) && Distinct(ns)
    && GoodCode(s, yes, no)
    && b == ns[|ns| - 1] && g[b].head == ns[0]
    && Resolved(g, s, ns)
    && Senses(g, s, ns)
    && Threaded(g, s, ns, yes, true)
    && Threaded(g, s, ns, no, false)
  }

  /** The arena holds expression t, with its tests from left to right at indices ns, and b is
      the block by which the parser knows it. */
  ghost predicate Fragment(g: Graph, t: Tree<TestCode>, ns: seq<int>, b: int) {
    && Linked(g, Shape(t), Open(t, true), Open(t, false), ns, b)
    && Placed(g, Tests(t), ns)
  }

  /** Block ids of a list of positions. */
  ghost function Ids(ns: seq<int>, open: seq<nat>): (ids: seq<int>)
    ensures |ids| == |open| && forall k :: 0 <= k < |open| ==> ids[k] == Nth(ns, open[k])
  {
    seq(|open|, k requires 0 <= k < |open| => Nth(ns, open[k]))
  }

  function FlipSense(g: Graph, b: int): Graph
    requires 0 <= b < |g|
  {
    g[b := g[b].(sense := !g[b].sense)]
  }

  /** Whichever way the last block's `sense` points, the links make one of the two lists. */
  lemma LinkedChain(g: Graph, s: seq<Links>, yes: seq<nat>, no: seq<nat>, ns: seq<int>, b: int, which: bool)
    requires Linked(g, s, yes, no, ns, b)
    ensures Chain(if which then g else FlipSense(g, b), b, Ids(ns, if which then yes else no))
  {
    hide Linked, LinksOn, Indices, FlipSense, Ids;
    LinkedFacts(g, s, yes, no, ns, b, which);
    var open := if which then yes else no;
    var g' := if which then g else FlipSense(g, b);
    var ids := Ids(ns, open);
    IdsDistinct(g', ns, open);
    forall k | 0 <= k < |ids|
      ensures LinksOn(g', ids, k)
    {
      LinkedStep(g, s, yes, no, ns, b, which, k);
    }
  }

  lemma LinkedFacts(g: Graph, s: seq<Links>, yes: seq<nat>, no: seq<nat>, ns: seq<int>, b: int, which: bool)
    requires Linked(g, s, yes, no, ns, b)
    ensures var open := if which then yes else no;
      && 0 <= b < |g| && Indices(if which then g else FlipSense(g, b), ns) && Distinct(ns) && Distinct(open)
      && (forall k :: 0 <= k < |open| ==> open[k] < |ns|) && |Ids(ns, open)| > 0 && b == Nth(Ids(ns, open), 0)
  {
    hide Resolved, Threaded, Senses;
  }

  lemma IdsDistinct(g: Graph, ns: seq<int>, open: seq<nat>)
    requires Indices(g, ns) && Distinct(ns) && Distinct(open) && forall k :: 0 <= k < |open| ==> open[k] < |ns|
    ensures Indices(g, Ids(ns, open)) && Distinct(Ids(ns, open))
  {
  }

  lemma LinkedStep(g: Graph, s: seq<Links>, yes: seq<nat>, no: seq<nat>, ns: seq<int>, b: int, which: bool, k: nat)
    requires Linked(g, s, yes, no, ns, b) && k < |if which then yes else no|
    ensures var g', ids := if which then g else FlipSense(g, b), Ids(ns, if which then yes else no);
      Indices(g', ids) && LinksOn(g', ids, k)
  {
    hide Resolved;
    var open := if which then yes else no;
    assert IsOpen(s[open[k]], which);
    assert ThreadedAt(g, s, ns, open, which, k);
    assert SenseAt(g, s, ns, open[k]);
    if k > 0 {
      assert open[k] != open[0];
    }
  }

  // ----- joining two expressions -----

  /** A block of the left operand after gen_and (or == false) or gen_or (or == true). */
  function LeftBlock(b: Block, l: Links, or: bool, last: bool, target: int): Block {
    var b' := Patch(b, l, !or, target);
    if last && !or then b'.(sense := !b.sense) else b'
  }

  function Patch(b: Block, l: Links, yes: bool, target: int): Block {
    b.(jt := if l.jt == Out(yes) then target else b.jt, jf := if l.jf == Out(yes) then target else b.jf)
  }

  /** A block of the right operand; the end of its list continues with the left operand's. */
  function RightBlock(b: Block, l: Links, or: bool, end: bool, b0: int, last: bool, head: int): Block {
    b.(jt := if end && l.jt == Out(or) then b0 else b.jt,
       jf := if end && l.jt != Out(or) then b0 else b.jf,
       head := if last then head else b.head)
  }

  ghost predicate Apart(ns0: seq<int>, ns1: seq<int>) {
    forall i, j :: 0 <= i < |ns0| && 0 <= j < |ns1| ==> ns0[i] != ns1[j]
  }

  /** What gen_and and gen_or do to the blocks of their operands. */
  ghost predicate Joined(g: Graph, g': Graph, or: bool, s0: seq<Links>, ns0: seq<int>, s1: seq<Links>, o1: seq<nat>,
      ns1: seq<int>)
    requires |s0| == |ns0| && |s1| == |ns1| && Indices(g, ns0) && Indices(g, ns1) && |o1| > 0 && |s0| > 0 && |s1| > 0
  {
    && |g'| == |g|
    && (forall i {:trigger ns0[i]} :: 0 <= i < |ns0| ==>
          g'[ns0[i]] == LeftBlock(g[ns0[i]], s0[i], or, i == |ns0| - 1, ns1[0]))
    && (forall i {:trigger ns1[i]} :: 0 <= i < |ns1| ==>
          g'[ns1[i]] == RightBlock(g[ns1[i]], s1[i], or, i == o1[|o1| - 1], ns0[|ns0| - 1], i == |ns1| - 1, ns0[0]))
  }

  lemma JoinedResolvedAt(g: Graph, g': Graph, or: bool, s0: seq<Links>, ns0: seq<int>, s1: seq<Links>, o1: seq<nat>,
      ns1: seq<int>, i: nat)
    requires |s0| == |ns0| && |s1| == |ns1| && Indices(g, ns0) && Indices(g, ns1) && GoodShape(s0) && GoodShape(s1)
    requires |s0| > 0 && |s1| > 0 && (i < |s0| ==> ResolvedAt(g, s0, ns0, i))
    requires |s0| <= i < |s0| + |s1| ==> ResolvedAt(g, s1, ns1, i - |s0|)
    requires OpenList(o1, s1, or) && Joined(g, g', or, s0, ns0, s1, o1, ns1)
    requires GoodShape(Join(s0, s1, or)) && Indices(g', ns0 + ns1) && i < |s0| + |s1|
    ensures ResolvedAt(g', Join(s0, s1, or), ns0 + ns1, i)
  {
    hide GoodShape, ResolvedAt, LeftBlock, RightBlock, Join;
    if i < |s0| {
      assert g'[ns0[i]] == LeftBlock(g[ns0[i]], s0[i], or, i == |ns0| - 1, ns1[0]);
      LeftResolvedAt(g, g', or, s0, ns0, s1, ns1, i);
    } else {
      var j, e := i - |s0|, o1[|o1| - 1];
      assert g'[ns1[j]] == RightBlock(g[ns1[j]], s1[j], or, j == e, ns0[|ns0| - 1], j == |ns1| - 1, ns0[0]);
      assert IsOpen(s1[e], or);
      RightResolvedAt(g, g', or, s0, ns0, s1, ns1, j, j == e);
    }
  }

  lemma LinksInside(s: seq<Links>, i: nat)
    requires GoodShape(s) && i < |s|
    ensures (s[i].jt.To? ==> 0 <= s[i].jt.pos < |s|) && (s[i].jf.To? ==> 0 <= s[i].jf.pos < |s|)
  {
  }

  lemma LeftResolvedAt(g: Graph, g': Graph, or: bool, s0: seq<Links>, ns0: seq<int>, s1: seq<Links>, ns1: seq<int>,
      i: nat)
    requires |s0| == |ns0| && |s1| == |ns1| > 0 && Indices(g, ns0) && GoodShape(s0) && i < |s0|
    requires ResolvedAt(g, s0, ns0, i)
    requires |g'| == |g| && g'[ns0[i]] == LeftBlock(g[ns0[i]], s0[i], or, i == |ns0| - 1, ns1[0])
    requires GoodShape(Join(s0, s1, or)) && Indices(g', ns0 + ns1)
    ensures ResolvedAt(g', Join(s0, s1, or), ns0 + ns1, i)
  {
    hide GoodShape;
    LinksInside(s0, i);
    assert (ns0 + ns1)[|ns0|] == ns1[0];
  }

  lemma RightResolvedAt(g: Graph, g': Graph, or: bool, s0: seq<Links>, ns0: seq<int>, s1: seq<Links>, ns1: seq<int>,
      j: nat, end: bool)
    requires |s0| == |ns0| > 0 && |s1| == |ns1| && Indices(g, ns1) && GoodShape(s1) && j < |s1|
    requires ResolvedAt(g, s1, ns1, j)
    requires |g'| == |g| && g'[ns1[j]] == RightBlock(g[ns1[j]], s1[j], or, end, ns0[|ns0| - 1], j == |ns1| - 1, ns0[0])
    requires end ==> IsOpen(s1[j], or)
    requires GoodShape(Join(s0, s1, or)) && Indices(g', ns0 + ns1)
    ensures ResolvedAt(g', Join(s0, s1, or), ns0 + ns1, |s0| + j)
  {
    hide GoodShape;
    LinksInside(s1, j);
    assert (ns0 + ns1)[|s0| + j] == ns1[j];
  }

  lemma JoinedResolved(g: Graph, g': Graph, or: bool, s0: seq<Links>, ns0: seq<int>, s1: seq<Links>, o1: seq<nat>,
      ns1: seq<int>)
    requires |s0| == |ns0| && |s1| == |ns1| && Indices(g, ns0) && Indices(g, ns1) && GoodShape(s0) && GoodShape(s1)
    requires Resolved(g, s0, ns0) && Resolved(g, s1, ns1)
    requires OpenList(o1, s1, or) && Joined(g, g', or, s0, ns0, s1, o1, ns1)
    requires GoodShape(Join(s0, s1, or)) && Indices(g', ns0 + ns1)
    ensures Resolved(g', Join(s0, s1, or), ns0 + ns1)
  {
    forall i | 0 <= i < |s0| + |s1|
      ensures ResolvedAt(g', Join(s0, s1, or), ns0 + ns1, i)
    {
      JoinedResolvedAt(g, g', or, s0, ns0, s1, o1, ns1, i);
    }
  }

  lemma JoinedSenses(g: Graph, g': Graph, or: bool, s0: seq<Links>, ns0: seq<int>, s1: seq<Links>, o1: seq<nat>,
      ns1: seq<int>)
    requires |s0| == |ns0| && |s1| == |ns1| && Indices(g, ns0) && Indices(g, ns1) && GoodShape(s0) && GoodShape(s1)
    requires Senses(g, s0, ns0) && Senses(g, s1, ns1)
    requires |o1| > 0 && Joined(g, g', or, s0, ns0, s1, o1, ns1)
    requires Indices(g', ns0 + ns1)
    ensures Senses(g', Join(s0, s1, or), ns0 + ns1)
  {
    var s, ns := Join(s0, s1, or), ns0 + ns1;
    forall i | 0 <= i < |s|
      ensures SenseAt(g', s, ns, i)
    {
      if i < |s0| {
        assert ns[i] == ns0[i];
        assert SenseAt(g, s0, ns0, i);
      } else {
        var j := i - |s0|;
        assert ns[i] == ns1[j];
        assert SenseAt(g, s1, ns1, j);
      }
    }
  }

  lemma JoinedThreadedAt(g: Graph, g': Graph, or: bool, s0: seq<Links>, o0: seq<nat>, ns0: seq<int>, s1: seq<Links>,
      o1: seq<nat>, ns1: seq<int>, k: nat)
    requires |s0| == |ns0| && |s1| == |ns1| && Indices(g, ns0) && Indices(g, ns1) && GoodShape(s0)
    requires OpenList(o0, s0, or) && OpenList(o1, s1, or) && OpenList(Moved(o1, |s0|) + o0, Join(s0, s1, or), or)
    requires k < |o1| ==> ThreadedAt(g, s1, ns1, o1, or, k)
    requires |o1| <= k < |o1| + |o0| ==> ThreadedAt(g, s0, ns0, o0, or, k - |o1|)
    requires Joined(g, g', or, s0, ns0, s1, o1, ns1)
    requires Indices(g', ns0 + ns1) && k < |o1| + |o0|
    ensures ThreadedAt(g', Join(s0, s1, or), ns0 + ns1, Moved(o1, |s0|) + o0, or, k)
  {
    var s, ns, open := Join(s0, s1, or), ns0 + ns1, Moved(o1, |s0|) + o0;
    if k < |o1| {
      assert ns[open[k]] == ns1[o1[k]];
      if k + 1 < |o1| {
        assert o1[k] != o1[|o1| - 1];
      }
    } else {
      assert ns[open[k]] == ns0[o0[k - |o1|]];
      assert IsOpen(s0[o0[k - |o1|]], or);
    }
  }

  /** The list that the two operands share is the right operand's followed by the left's. */
  lemma JoinedThreaded(g: Graph, g': Graph, or: bool, s0: seq<Links>, o0: seq<nat>, ns0: seq<int>, s1: seq<Links>,
      o1: seq<nat>, ns1: seq<int>)
    requires |s0| == |ns0| && |s1| == |ns1| && Indices(g, ns0) && Indices(g, ns1) && GoodShape(s0)
    requires OpenList(o0, s0, or) && OpenList(o1, s1, or) && OpenList(Moved(o1, |s0|) + o0, Join(s0, s1, or), or)
    requires Threaded(g, s0, ns0, o0, or) && Threaded(g, s1, ns1, o1, or)
    requires Joined(g, g', or, s0, ns0, s1, o1, ns1)
    requires Indices(g', ns0 + ns1)
    ensures Threaded(g', Join(s0, s1, or), ns0 + ns1, Moved(o1, |s0|) + o0, or)
  {
    forall k | 0 <= k < |o1| + |o0|
      ensures ThreadedAt(g', Join(s0, s1, or), ns0 + ns1, Moved(o1, |s0|) + o0, or, k)
    {
      JoinedThreadedAt(g, g', or, s0, o0, ns0, s1, o1, ns1, k);
    }
  }

  /** The other list of the right operand is unchanged. */
  lemma UnjoinedThreaded(g: Graph, g': Graph, or: bool, s0: seq<Links>, ns0: seq<int>, s1: seq<Links>, o1: seq<nat>,
      o1': seq<nat>, ns1: seq<int>, other: bool)
    requires other == !or
    requires |s0| == |ns0| > 0 && |s1| == |ns1| && Indices(g, ns0) && Indices(g, ns1) && GoodShape(s1)
    requires OpenList(o1, s1, or) && OpenList(o1', s1, other) && OpenList(Moved(o1', |s0|), Join(s0, s1, or), other)
    requires Threaded(g, s1, ns1, o1', other)
    requires Joined(g, g', or, s0, ns0, s1, o1, ns1)
    requires Indices(g', ns0 + ns1)
    ensures Threaded(g', Join(s0, s1, or), ns0 + ns1, Moved(o1', |s0|), other)
  {
    var s, ns, open := Join(s0, s1, or), ns0 + ns1, Moved(o1', |s0|);
    forall k | 0 <= k < |open|
      ensures ThreadedAt(g', s, ns, open, other, k)
    {
      assert ThreadedAt(g, s1, ns1, o1', other, k);
      assert open[k] == |s0| + o1'[k] && ns[open[k]] == ns1[o1'[k]];
      assert IsOpen(s1[o1'[k]], other) && IsOpen(s1[o1[|o1| - 1]], or);
    }
  }

  lemma JoinedLinked(g: Graph, g': Graph, or: bool, s0: seq<Links>, o0: seq<nat>, ns0: seq<int>,
      s1: seq<Links>, o1: seq<nat>, o1': seq<nat>, ns1: seq<int>)
    requires |s0| == |ns0| && |s1| == |ns1| && Indices(g, ns0) && Indices(g, ns1) && GoodShape(s0) && GoodShape(s1)
    requires OpenList(o0, s0, or) && OpenList(o1, s1, or) && OpenList(o1', s1, !or)
    requires Resolved(g, s0, ns0) && Senses(g, s0, ns0) && Threaded(g, s0, ns0, o0, or)
    requires Resolved(g, s1, ns1) && Senses(g, s1, ns1) && Threaded(g, s1, ns1, o1, or)
    requires Threaded(g, s1, ns1, o1', !or)
    requires Joined(g, g', or, s0, ns0, s1, o1, ns1) && Indices(g', ns0 + ns1)
    requires GoodShape(Join(s0, s1, or))
    requires OpenList(Moved(o1, |s0|) + o0, Join(s0, s1, or), or) && OpenList(Moved(o1', |s0|), Join(s0, s1, or), !or)
    ensures Resolved(g', Join(s0, s1, or), ns0 + ns1)
    ensures Senses(g', Join(s0, s1, or), ns0 + ns1)
    ensures Threaded(g', Join(s0, s1, or), ns0 + ns1, Moved(o1, |s0|) + o0, or)
    ensures Threaded(g', Join(s0, s1, or), ns0 + ns1, Moved(o1', |s0|), !or)
  {
    JoinedResolved(g, g', or, s0, ns0, s1, o1, ns1);
    JoinedSenses(g, g', or, s0, ns0, s1, o1, ns1);
    JoinedThreaded(g, g', or, s0, o0, ns0, s1, o1, ns1);
    UnjoinedThreaded(g, g', or, s0, ns0, s1, o1, o1', ns1, !or);
  }

  lemma JoinedPlaced(g: Graph, g': Graph, or: bool, a0: seq<TestCode>, s0: seq<Links>, ns0: seq<int>,
      a1: seq<TestCode>, s1: seq<Links>, o1: seq<nat>, ns1: seq<int>)
    requires |a0| == |s0| == |ns0| > 0 && |a1| == |s1| == |ns1| > 0 && Indices(g, ns0) && Indices(g, ns1) && |o1| > 0
    requires Placed(g, a0, ns0) && Placed(g, a1, ns1)
    requires Joined(g, g', or, s0, ns0, s1, o1, ns1)
    ensures Indices(g', ns0 + ns1) && Placed(g', a0 + a1, ns0 + ns1)
    ensures g'[ns1[|ns1| - 1]].head == ns0[0]
  {
    var a, ns := a0 + a1, ns0 + ns1;
    forall i | 0 <= i < |ns|
      ensures 0 <= ns[i] < |g'| && g'[ns[i]].stmts == a[i].stmts && g'[ns[i]].br == a[i].br
    {
      if i < |ns0| {
        assert ns[i] == ns0[i];
      } else {
        assert ns[i] == ns1[i - |ns0|];
      }
    }
  }

  lemma JoinedFragment(g: Graph, g': Graph, or: bool, t0: Tree<TestCode>, ns0: seq<int>, b0: int, t1: Tree<TestCode>,
      ns1: seq<int>, b1: int)
    requires Fragment(g, t0, ns0, b0) && Fragment(g, t1, ns1, b1) && Apart(ns0, ns1)
    requires Joined(g, g', or, Shape(t0), ns0, Shape(t1), Open(t1, or), ns1)
    ensures Fragment(g', Op(or, t0, t1), ns0 + ns1, b1)
  {
    hide Shape, Open, Tests, Resolved, Senses, Threaded, Placed, GoodShape, OpenList, Joined, Apart;
    var t := Op(or, t0, t1);
    ShapeIsGood(t);
    OpenIsGood(t, or);
    OpenIsGood(t, !or);
    OpParts(or, t0, t1);
    FragmentParts(g, t0, ns0, b0);
    FragmentParts(g, t1, ns1, b1);
    JoinedPlaced(g, g', or, Tests(t0), Shape(t0), ns0, Tests(t1), Shape(t1), Open(t1, or), ns1);
    JoinedLinked(g, g', or, Shape(t0), Open(t0, or), ns0, Shape(t1), Open(t1, or), Open(t1, !or), ns1);
    DistinctJoined(ns0, ns1);
    assert (ns0 + ns1)[|ns0 + ns1| - 1] == ns1[|ns1| - 1] && (ns0 + ns1)[0] == ns0[0];
  }

  lemma OpParts(or: bool, t0: Tree<TestCode>, t1: Tree<TestCode>)
    ensures var t := Op(or, t0, t1);
      && Shape(t) == Join(Shape(t0), Shape(t1), or) && Tests(t) == Tests(t0) + Tests(t1)
      && Open(t, or) == Moved(Open(t1, or), |Shape(t0)|) + Open(t0, or)
        && Open(t, !or) == Moved(Open(t1, !or), |Shape(t0)|)
  {
    var m := Moved(Open(t1, !or), |Shape(t0)|);
    assert m + [] == m;
  }

  lemma FragmentParts(g: Graph, t: Tree<TestCode>, ns: seq<int>, b: int)
    requires Fragment(g, t, ns, b)
    ensures |ns| == |Shape(t)| == |Tests(t)| > 0 && Indices(g, ns) && Distinct(ns) && b == ns[|ns| - 1]
    ensures g[b].head == ns[0]
    ensures |Open(t, true)| > 0 && forall k :: 0 <= k < |Open(t, true)| ==> Open(t, true)[k] < |ns|
    ensures |Open(t, false)| > 0 && forall k :: 0 <= k < |Open(t, false)| ==> Open(t, false)[k] < |ns|
  {
    hide Shape, Open, Resolved, Senses, Threaded, Placed;
  }

  lemma DistinctJoined(ns0: seq<int>, ns1: seq<int>)
    requires Distinct(ns0) && Distinct(ns1) && Apart(ns0, ns1)
    ensures Distinct(ns0 + ns1)
  {
  }

  lemma NegatedLinks(g: Graph, s: seq<Links>, ns: seq<int>, i: nat)
    requires |s| == |ns| && Indices(g, ns) && GoodShape(s) && GoodShape(FlipAll(s)) && Distinct(ns) && i < |s|
    requires ResolvedAt(g, s, ns, i) && SenseAt(g, s, ns, i)
    ensures ResolvedAt(FlipSense(g, ns[|ns| - 1]), FlipAll(s), ns, i)
    ensures SenseAt(FlipSense(g, ns[|ns| - 1]), FlipAll(s), ns, i)
  {
  }

  lemma NegatedThread(g: Graph, s: seq<Links>, ns: seq<int>, open: seq<nat>, yes: bool, other: bool, b: int)
    requires other == !yes && 0 <= b < |g|
    requires |s| == |ns| && Indices(g, ns) && GoodShape(s)
    requires OpenList(open, s, yes) && OpenList(open, FlipAll(s), other)
    requires Threaded(g, s, ns, open, yes)
    ensures Threaded(FlipSense(g, b), FlipAll(s), ns, open, other)
  {
    forall k | 0 <= k < |open|
      ensures ThreadedAt(FlipSense(g, b), FlipAll(s), ns, open, other, k)
    {
      assert ThreadedAt(g, s, ns, open, yes, k);
    }
  }

  lemma NegatedFragment(g: Graph, t: Tree<TestCode>, ns: seq<int>, b: int)
    requires Fragment(g, t, ns, b)
    ensures Fragment(FlipSense(g, b), Not(t), ns, b)
  {
    var s := Shape(t);
    ShapeIsGood(Not(t));
    OpenIsGood(Not(t), true);
    OpenIsGood(Not(t), false);
    forall i | 0 <= i < |s|
      ensures ResolvedAt(FlipSense(g, b), FlipAll(s), ns, i) && SenseAt(FlipSense(g, b), FlipAll(s), ns, i)
    {
      assert ResolvedAt(g, s, ns, i) && SenseAt(g, s, ns, i);
      NegatedLinks(g, s, ns, i);
    }
    NegatedThread(g, s, ns, Open(t, true), true, false, b);
    NegatedThread(g, s, ns, Open(t, false), false, true, b);
  }

  // ----- the code generator -----

  /** The effect of backpatching a list. */
  ghost predicate Patched(g: Graph, g': Graph, ids: seq<int>, target: int) {
    |g'| == |g| && forall i :: 0 <= i < |g| ==> g'[i] == if i in ids then SetLink(g[i], target) else g[i]
  }

  lemma ChainFrame(g: Graph, g': Graph, list: int, ids: seq<int>)
    requires Chain(g, list, ids) && |g'| == |g|
    requires forall k :: 0 <= k < |ids| ==> g'[ids[k]] == g[ids[k]]
    ensures Chain(g', list, ids)
  {
    forall k | 0 <= k < |ids| ensures LinksOn(g', ids, k) {
      assert LinksOn(g, ids, k);
    }
  }

  lemma InIds(s: seq<Links>, ns: seq<int>, open: seq<nat>, yes: bool, i: nat)
    requires |s| == |ns| && Distinct(ns) && GoodOpen(open, s, yes) && i < |s|
    ensures ns[i] in Ids(ns, open) <==> IsOpen(s[i], yes)
  {
    if IsOpen(s[i], yes) {
      var k :| 0 <= k < |open| && open[k] == i;
      assert Ids(ns, open)[k] == ns[i];
    }
    if ns[i] in Ids(ns, open) {
      var k :| 0 <= k < |open| && Ids(ns, open)[k] == ns[i];
      assert open[k] == i;
    }
  }

  /** Backpatching one of the two lists of an expression resolves exactly its open exits. */
  lemma PatchedExits(g: Graph, g': Graph, s: seq<Links>, ns: seq<int>, open: seq<nat>, yes: bool, target: int, i: nat)
    requires |s| == |ns| && Distinct(ns) && Indices(g, ns) && GoodShape(s) && GoodOpen(open, s, yes) && i < |s|
    requires SenseAt(g, s, ns, i)
    requires Patched(if yes then g else FlipSense(g, ns[|ns| - 1]), g', Ids(ns, open), target)
    ensures g'[ns[i]] == Patch(if yes then g[ns[i]] else FlipSense(g, ns[|ns| - 1])[ns[i]], s[i], yes, target)
  {
    InIds(s, ns, open, yes, i);
  }

  lemma PatchedElsewhere(g: Graph, g': Graph, ids: seq<int>, ns: seq<int>, target: int)
    requires Patched(g, g', ids, target) && forall k :: 0 <= k < |ids| ==> ids[k] in ns
    ensures forall i :: 0 <= i < |g| && i !in ns ==> g'[i] == g[i]
  {
  }

  function Flipped(b: Block, flip: bool): Block { if flip then b.(sense := !b.sense) else b }

  /** The last block's `sense` is flipped around a merge of false lists. */
  function RightBySteps(b: Block, or: bool, end: bool, b0: int, last: bool, head: int): Block {
    var h := Flipped(b, last && !or);
    var h' := Flipped(if end then SetLink(h, b0) else h, last && !or);
    if last then h'.(head := head) else h'
  }

  lemma RightBlockBySteps(g: Graph, s: seq<Links>, ns: seq<int>, o: seq<nat>, or: bool, b0: int, head: int, i: nat)
    requires |s| == |ns| && Indices(g, ns) && GoodShape(s) && OpenList(o, s, or) && i < |s|
    requires SenseAt(g, s, ns, i)
    ensures RightBySteps(g[ns[i]], or, i == o[|o| - 1], b0, i == |s| - 1, head)
         == RightBlock(g[ns[i]], s[i], or, i == o[|o| - 1], b0, i == |s| - 1, head)
  {
    if i == o[|o| - 1] {
      assert IsOpen(s[i], or);
    }
  }

  /** The updates of gen_and and gen_or, block by block, amount to `Joined`. */
  lemma StepsJoin(g: Graph, g1: Graph, g': Graph, or: bool, s0: seq<Links>, o0: seq<nat>, ns0: seq<int>,
      s1: seq<Links>, o1: seq<nat>, ns1: seq<int>, yes: bool)
    requires yes == !or
    requires |s0| == |ns0| && |s1| == |ns1| && Indices(g, ns0) && Indices(g, ns1) && GoodShape(s0) && GoodShape(s1)
    requires Distinct(ns0)
    requires GoodOpen(o0, s0, yes) && OpenList(o1, s1, or)
    requires Senses(g, s0, ns0) && Senses(g, s1, ns1)
    requires Patched(if yes then g else FlipSense(g, ns0[|ns0| - 1]), g1, Ids(ns0, o0), ns1[0])
    requires |g'| == |g|
    requires forall i {:trigger ns0[i]} :: 0 <= i < |ns0| ==> g'[ns0[i]] == Flipped(g1[ns0[i]], i == |ns0| - 1)
    requires forall i {:trigger ns1[i]} :: 0 <= i < |ns1| ==>
      g'[ns1[i]] == RightBySteps(g[ns1[i]], or, i == o1[|o1| - 1], ns0[|ns0| - 1], i == |s1| - 1, ns0[0])
    ensures Joined(g, g', or, s0, ns0, s1, o1, ns1)
  {
    hide Patched, RightBySteps, RightBlock, LeftBlock, SenseAt, Flipped;
    forall i {:trigger ns0[i]} | 0 <= i < |ns0|
      ensures g'[ns0[i]] == LeftBlock(g[ns0[i]], s0[i], or, i == |ns0| - 1, ns1[0])
    {
      assert SenseAt(g, s0, ns0, i);
      LeftBySteps(g, g1, s0, ns0, o0, or, ns1[0], i);
    }
    forall i {:trigger ns1[i]} | 0 <= i < |ns1|
      ensures g'[ns1[i]] == RightBlock(g[ns1[i]], s1[i], or, i == o1[|o1| - 1], ns0[|ns0| - 1], i == |ns1| - 1, ns0[0])
    {
      assert SenseAt(g, s1, ns1, i);
      RightBlockBySteps(g, s1, ns1, o1, or, ns0[|ns0| - 1], ns0[0], i);
    }
  }

  lemma LeftBySteps(g: Graph, g1: Graph, s: seq<Links>, ns: seq<int>, open: seq<nat>, or: bool, target: int, i: nat)
    requires |s| == |ns| && Distinct(ns) && Indices(g, ns) && GoodShape(s) && GoodOpen(open, s, !or) && i < |s|
    requires SenseAt(g, s, ns, i)
    requires Patched(if !or then g else FlipSense(g, ns[|ns| - 1]), g1, Ids(ns, open), target)
    ensures 0 <= ns[i] < |g1|
    ensures Flipped(g1[ns[i]], i == |ns| - 1) == LeftBlock(g[ns[i]], s[i], or, i == |ns| - 1, target)
  {
    PatchedExits(g, g1, s, ns, open, !or, target, i);
  }

  function SetHead(g: Graph, b: int, head: int): Graph
    requires 0 <= b < |g|
  {
    g[b := g[b].(head := head)]
  }

  function Relink(g: Graph, b: int, target: int): Graph
    requires 0 <= b < |g|
  {
    g[b := SetLink(g[b], target)]
  }

  ghost predicate SameOutside(g: Graph, g': Graph, ns0: seq<int>, ns1: seq<int>) {
    |g'| == |g| && forall i :: 0 <= i < |g| && i !in ns0 && i !in ns1 ==> g'[i] == g[i]
  }

  /** Two expressions that occupy different blocks of the arena. */
  ghost predicate Operands(g: Graph, t0: Tree<TestCode>, ns0: seq<int>, b0: int, t1: Tree<TestCode>, ns1: seq<int>,
      b1: int) {
    Fragment(g, t0, ns0, b0) && Fragment(g, t1, ns1, b1) && Apart(ns0, ns1)
  }

  ghost function OpenIds(t: Tree<TestCode>, ns: seq<int>, yes: bool): seq<int> { Ids(ns, Open(t, yes)) }

  lemma FragmentChain(g: Graph, t: Tree<TestCode>, ns: seq<int>, b: int, yes: bool)
    requires Fragment(g, t, ns, b)
    ensures 0 <= b < |g| && g[b].head == Nth(ns, 0)
    ensures Chain(if yes then g else FlipSense(g, b), b, OpenIds(t, ns, yes)) && |OpenIds(t, ns, yes)| > 0
    ensures forall k :: 0 <= k < |OpenIds(t, ns, yes)| ==> OpenIds(t, ns, yes)[k] in ns
  {
    LinkedChain(g, Shape(t), Open(t, true), Open(t, false), ns, b, yes);
  }

  /** Patching the left operand leaves the right operand's list in place. */
  lemma MergeList(g: Graph, g1: Graph, or: bool, t0: Tree<TestCode>, ns0: seq<int>, b0: int, t1: Tree<TestCode>,
      ns1: seq<int>, b1: int)
    requires Operands(g, t0, ns0, b0, t1, ns1, b1)
    requires 0 <= b0 < |g| && Patched(if or then FlipSense(g, b0) else g, g1, OpenIds(t0, ns0, !or), Nth(ns1, 0))
    ensures var g2 := FlipSense(g1, b0);
            0 <= b1 < |g| && Chain(if or then g2 else FlipSense(g2, b1), b1, OpenIds(t1, ns1, or))
  {
    hide Fragment, OpenIds, Shape, Open, Tests;
    FragmentChain(g, t0, ns0, b0, !or);
    FragmentChain(g, t1, ns1, b1, or);
    FragmentParts(g, t0, ns0, b0);
    FragmentParts(g, t1, ns1, b1);
    var g2, ids1 := FlipSense(g1, b0), OpenIds(t1, ns1, or);
    PatchedElsewhere(if or then FlipSense(g, b0) else g, g1, OpenIds(t0, ns0, !or), ns0, Nth(ns1, 0));
    forall k | 0 <= k < |ids1|
      ensures g2[ids1[k]] == g[ids1[k]]
    {
      assert ids1[k] in ns1 && ids1[k] !in ns0;
    }
    if or {
      ChainFrame(g, g2, b1, ids1);
    } else {
      ChainFrame(FlipSense(g, b1), FlipSense(g2, b1), b1, ids1);
    }
  }

  /** The whole update of gen_and and gen_or from the patched graph on. */
  function AfterPatch(g1: Graph, or: bool, b0: int, b1: int, end: int): Graph
    requires 0 <= b0 < |g1| && 0 <= b1 < |g1| && 0 <= end < |g1|
  {
    var g2 := FlipSense(g1, b0);
    var g3 := if or then Relink(g2, end, b0) else FlipSense(Relink(FlipSense(g2, b1), end, b0), b1);
    SetHead(g3, b1, g3[b0].head)
  }

  lemma AfterPatchBlocks(g: Graph, g1: Graph, or: bool, ns0: seq<int>, ns1: seq<int>, e: nat)
    requires |g1| == |g| && Indices(g, ns0) && Indices(g, ns1) && Apart(ns0, ns1) && Distinct(ns0) && Distinct(ns1)
    requires |ns0| > 0 && e < |ns1| && g1[ns0[|ns0| - 1]].head == ns0[0]
    requires forall i :: 0 <= i < |g| && i !in ns0 ==> g1[i] == g[i]
    ensures var b0, b1 := ns0[|ns0| - 1], ns1[|ns1| - 1];
            var g' := AfterPatch(g1, or, b0, b1, ns1[e]);
            && SameOutside(g, g', ns0, ns1)
            && (forall i {:trigger ns0[i]} :: 0 <= i < |ns0| ==> g'[ns0[i]] == Flipped(g1[ns0[i]], i == |ns0| - 1))
            && (forall i {:trigger ns1[i]} :: 0 <= i < |ns1| ==>
                  g'[ns1[i]] == RightBySteps(g[ns1[i]], or, i == e, b0, i == |ns1| - 1, ns0[0]))
  {
    hide RightBySteps, AfterPatch;
    var b0, b1 := ns0[|ns0| - 1], ns1[|ns1| - 1];
    assert b1 != b0 && ns1[e] != b0;
    AfterPatchAt(g1, or, b0, b1, ns1[e], b0);
    var g' := AfterPatch(g1, or, b0, b1, ns1[e]);
    forall i {:trigger ns0[i]} | 0 <= i < |ns0|
      ensures g'[ns0[i]] == Flipped(g1[ns0[i]], i == |ns0| - 1)
    {
      assert ns0[i] != b1 && ns0[i] != ns1[e];
      assert i < |ns0| - 1 ==> ns0[i] != b0;
      AfterPatchAt(g1, or, b0, b1, ns1[e], ns0[i]);
    }
    forall i {:trigger ns1[i]} | 0 <= i < |ns1|
      ensures g'[ns1[i]] == RightBySteps(g[ns1[i]], or, i == e, b0, i == |ns1| - 1, ns0[0])
    {
      assert ns1[i] !in ns0 && ns1[i] != b0 && b1 != b0 && ns1[e] != b0;
      assert i < |ns1| - 1 ==> ns1[i] != b1;
      assert i != e ==> ns1[i] != ns1[e];
      AfterPatchAt(g1, or, b0, b1, ns1[e], ns1[i]);
    }
    forall i | 0 <= i < |g| && i !in ns0 && i !in ns1 ensures g'[i] == g[i] {
      AfterPatchAt(g1, or, b0, b1, ns1[e], i);
    }
  }

  /** The update at one block. */
  lemma AfterPatchAt(g1: Graph, or: bool, b0: int, b1: int, end: int, x: int)
    requires 0 <= b0 < |g1| && 0 <= b1 < |g1| && 0 <= end < |g1| && 0 <= x < |g1| && b0 != b1 && b0 != end
    ensures var g' := AfterPatch(g1, or, b0, b1, end);
      && |g'| == |g1|
      && (x == b0 ==> g'[x] == Flipped(g1[x], true))
      && (x != b0 ==> g'[x] == RightBySteps(g1[x], or, x == end, b0, x == b1, g1[b0].head))
      && (x != b0 && x != end && x != b1 ==> g'[x] == g1[x])
  {
  }

  lemma PatchJoins(g: Graph, g1: Graph, or: bool, t0: Tree<TestCode>, ns0: seq<int>, b0: int, t1: Tree<TestCode>,
      ns1: seq<int>, b1: int, end: int)
    requires Operands(g, t0, ns0, b0, t1, ns1, b1)
    requires 0 <= b0 < |g| && Patched(if or then FlipSense(g, b0) else g, g1, OpenIds(t0, ns0, !or), Nth(ns1, 0))
    requires |OpenIds(t1, ns1, or)| > 0 && end == OpenIds(t1, ns1, or)[|OpenIds(t1, ns1, or)| - 1]
    ensures 0 <= b1 < |g| && 0 <= end < |g|
    ensures Fragment(AfterPatch(g1, or, b0, b1, end), Op(or, t0, t1), ns0 + ns1, b1)
    ensures SameOutside(g, AfterPatch(g1, or, b0, b1, end), ns0, ns1)
  {
    hide Fragment, Shape, Open, Tests, GoodShape, Patched, AfterPatch, Joined, Distinct, Indices;
    var o1, e := Open(t1, or), Open(t1, or)[|Open(t1, or)| - 1];
    FragmentChain(g, t0, ns0, b0, !or);
    FragmentParts(g, t0, ns0, b0);
    FragmentParts(g, t1, ns1, b1);
    OpenIsGood(t0, !or);
    OpenIsGood(t1, or);
    ShapeIsGood(t0);
    ShapeIsGood(t1);
    FragmentSenses(g, t0, ns0, b0);
    FragmentSenses(g, t1, ns1, b1);
    PatchedElsewhere(if or then FlipSense(g, b0) else g, g1, OpenIds(t0, ns0, !or), ns0, ns1[0]);
    PatchedHead(if or then FlipSense(g, b0) else g, g1, OpenIds(t0, ns0, !or), ns1[0], b0);
    assert end == ns1[e];
    InRange(g, ns1, e);
    var g' := AfterPatch(g1, or, b0, b1, end);
    LastNotElsewhere(g, g1, or, b0, ns0);
    AfterPatchBlocks(g, g1, or, ns0, ns1, e);
    StepsJoin(g, g1, g', or, Shape(t0), Open(t0, !or), ns0, Shape(t1), o1, ns1, !or);
    JoinedFragment(g, g', or, t0, ns0, b0, t1, ns1, b1);
  }

  lemma InRange(g: Graph, ns: seq<int>, e: nat)
    requires Indices(g, ns) && e < |ns|
    ensures 0 <= ns[e] < |g| && 0 <= ns[|ns| - 1] < |g|
  {
  }

  lemma FragmentSenses(g: Graph, t: Tree<TestCode>, ns: seq<int>, b: int)
    requires Fragment(g, t, ns, b)
    ensures |ns| == |Shape(t)| && Indices(g, ns) && Senses(g, Shape(t), ns)
  {
    hide Shape, Open, Resolved, Senses, Threaded, Placed;
  }

  /** Patching changes links only. */
  lemma PatchedHead(g: Graph, g1: Graph, ids: seq<int>, target: int, b: int)
    requires Patched(g, g1, ids, target) && 0 <= b < |g|
    ensures |g1| == |g| && g1[b].head == g[b].head
  {
  }

  /** Flipping the last block's sense does not concern other blocks. */
  lemma LastNotElsewhere(g: Graph, g1: Graph, or: bool, b0: int, ns0: seq<int>)
    requires 0 <= b0 < |g| == |g1| && b0 in ns0
    requires forall i :: 0 <= i < |g| && i !in ns0 ==> g1[i] == (if or then FlipSense(g, b0) else g)[i]
    ensures forall i :: 0 <= i < |g| && i !in ns0 ==> g1[i] == g[i]
  {
  }

  lemma FragmentFrame(g: Graph, g': Graph, t: Tree<TestCode>, ns: seq<int>, b: int)
    requires Fragment(g, t, ns, b) && |g'| >= |g|
    requires forall i :: 0 <= i < |ns| && 0 <= ns[i] < |g| ==> g'[ns[i]] == g[ns[i]]
    ensures Fragment(g', t, ns, b)
  {
    hide Shape, Open, Linked;
    LinkedIndices(g, Shape(t), Open(t, true), Open(t, false), ns, b);
    LinkedFrame(g, g', Shape(t), Open(t, true), Open(t, false), ns, b);
    LinkedIndices(g', Shape(t), Open(t, true), Open(t, false), ns, b);
  }

  /** The links of an expression do not depend on the code of its blocks. */
  lemma LinkedFrame(g: Graph, g': Graph, s: seq<Links>, yes: seq<nat>, no: seq<nat>, ns: seq<int>, b: int)
    requires Linked(g, s, yes, no, ns, b) && |g'| >= |g|
    requires forall i :: 0 <= i < |ns| && 0 <= ns[i] < |g| ==> SameLinks(g[ns[i]], g'[ns[i]])
    ensures Linked(g', s, yes, no, ns, b)
  {
    forall i | 0 <= i < |ns|
      ensures ResolvedAt(g', s, ns, i) && SenseAt(g', s, ns, i)
    {
      assert ResolvedAt(g, s, ns, i) && SenseAt(g, s, ns, i);
    }
    ThreadedFrame(g, g', s, ns, yes, true);
    ThreadedFrame(g, g', s, ns, no, false);
  }

  predicate SameLinks(b: Block, b': Block) {
    b'.jt == b.jt && b'.jf == b.jf && b'.sense == b.sense && b'.head == b.head
  }

  lemma ThreadedFrame(g: Graph, g': Graph, s: seq<Links>, ns: seq<int>, open: seq<nat>, yes: bool)
    requires |s| == |ns| && Indices(g, ns) && OpenList(open, s, yes) && Threaded(g, s, ns, open, yes) && |g'| >= |g|
    requires forall i :: 0 <= i < |ns| ==> SameLinks(g[ns[i]], g'[ns[i]])
    ensures Indices(g', ns) && Threaded(g', s, ns, open, yes)
  {
    forall k | 0 <= k < |open|
      ensures ThreadedAt(g', s, ns, open, yes, k)
    {
      assert ThreadedAt(g, s, ns, open, yes, k);
    }
  }

  lemma FragmentIndices(g: Graph, t: Tree<TestCode>, ns: seq<int>, b: int)
    requires Fragment(g, t, ns, b)
    ensures Indices(g, ns) && b in ns && 0 <= b < |g| && g[b].head == Nth(ns, 0) && |ns| > 0
  {
  }

  // ----- statements in front of a whole expression -----

  function Prologue(c: TestCode, pre: seq<Stmt>): TestCode { TestCode(pre + c.stmts, c.br) }

  /** The expression with statements in front of its first test. */
  function Prefixed(t: Tree<TestCode>, pre: seq<Stmt>): Tree<TestCode> {
    match t
    case Prim(c) => Prim(Prologue(c, pre))
    case Not(u) => Not(Prefixed(u, pre))
    case Op(or, u, v) => Op(or, Prefixed(u, pre), v)
  }

  lemma {:induction false} PrefixedParts(t: Tree<TestCode>, pre: seq<Stmt>)
    ensures Tests(Prefixed(t, pre)) == [Prologue(Tests(t)[0], pre)] + Tests(t)[1..]
    ensures Shape(Prefixed(t, pre)) == Shape(t) && forall yes :: Open(Prefixed(t, pre), yes) == Open(t, yes)
  {
    match t
    case Prim(c) =>
    case Not(u) => PrefixedParts(u, pre);
    case Op(or, u, v) =>
      PrefixedParts(u, pre);
      assert Tests(t) == Tests(u) + Tests(v);
  }

  /** Link headers of fixed length need no prologue. */
  lemma {:induction false} WholeOfNothing(t: Tree<TestCode>)
    ensures Whole(t, [], None) == t
  {
    match t
    case Prim(c) => assert [] + c.stmts == c.stmts;
    case Not(u) => WholeOfNothing(u);
    case Op(_, u, _) => WholeOfNothing(u);
  }

  lemma FragmentPrefixed(g: Graph, g': Graph, t: Tree<TestCode>, pre: seq<Stmt>, ns: seq<int>, b: int)
    requires Fragment(g, t, ns, b) && |g'| == |g|
    requires g' == g[g[b].head := g[g[b].head].(stmts := pre + g[g[b].head].stmts)]
    ensures Fragment(g', Prefixed(t, pre), ns, b)
  {
    hide Shape, Open, Tests, Prefixed, Linked;
    PrefixedParts(t, pre);
    FragmentIndices(g, t, ns, b);
    FragmentDistinct(g, t, ns, b);
    LinkedFrame(g, g', Shape(t), Open(t, true), Open(t, false), ns, b);
    LinkedIndices(g', Shape(t), Open(t, true), Open(t, false), ns, b);
    forall i | 0 <= i < |ns|
      ensures g'[ns[i]].stmts == Tests(Prefixed(t, pre))[i].stmts && g'[ns[i]].br == Tests(Prefixed(t, pre))[i].br
    {
      assert ns[i] == ns[0] <==> i == 0;
    }
  }

  lemma FragmentDistinct(g: Graph, t: Tree<TestCode>, ns: seq<int>, b: int)
    requires Fragment(g, t, ns, b)
    ensures Distinct(ns)
  {
  }

  lemma LinkedIndices(g: Graph, s: seq<Links>, yes: seq<nat>, no: seq<nat>, ns: seq<int>, b: int)
    requires Linked(g, s, yes, no, ns, b)
    ensures Indices(g, ns) && |ns| == |s|
  {
  }

  /** A whole filter: the expression with its prologue, behind the check if there is one. */
  function Whole(t: Tree<TestCode>, pre: seq<Stmt>, check: Option<TestCode>): Tree<TestCode> {
    match check
    case None => Prefixed(t, pre)
    case Some(c) => Op(false, Prim(c), Prefixed(t, pre))
  }

  /** Where an exit leads once the expression is closed. */
  function Target(e: Exit, ns: seq<int>, yes: int, no: int): int
    requires e.To? ==> e.pos < |ns|
  {
    match e
    case To(i) => ns[i]
    case Out(v) => if v then yes else no
  }

  ghost predicate ClosedAt(g: Graph, t: Tree<TestCode>, ns: seq<int>, yes: int, no: int, i: nat)
    requires |ns| == Size(t) && Indices(g, ns) && GoodShape(Shape(t)) && i < |ns|
  {
    && g[ns[i]].stmts == Tests(t)[i].stmts && g[ns[i]].br == Tests(t)[i].br
    && g[ns[i]].jt == Target(Shape(t)[i].jt, ns, yes, no)
    && g[ns[i]].jf == Target(Shape(t)[i].jf, ns, yes, no)
  }

  /** The arena holds expression t with every exit resolved. */
  ghost predicate Closed(g: Graph, t: Tree<TestCode>, ns: seq<int>, yes: int, no: int) {
    && |ns| == Size(t) && Indices(g, ns) && Distinct(ns) && GoodShape(Shape(t))
    && forall i :: 0 <= i < |ns| ==> ClosedAt(g, t, ns, yes, no, i)
  }

  /** Resolving the true exits leaves the list of false exits in place. */
  lemma SecondList(g: Graph, g1: Graph, s: seq<Links>, yes: seq<nat>, no: seq<nat>, ns: seq<int>, b: int, target: int)
    requires Linked(g, s, yes, no, ns, b) && GoodOpen(yes, s, true)
    requires Patched(g, g1, Ids(ns, yes), target)
    ensures Chain(FlipSense(g1, b), b, Ids(ns, no))
  {
    hide Linked, GoodOpen, Ids, Distinct;
    LinkedChain(g, s, yes, no, ns, b, false);
    LinkedFacts(g, s, yes, no, ns, b, false);
    var ids, g0, g' := Ids(ns, no), FlipSense(g, b), FlipSense(g1, b);
    forall k | 0 <= k < |ids| ensures LinksOn(g', ids, k) {
      SecondAt(g, g1, s, yes, no, ns, b, target, k);
      assert LinksOn(g0, ids, k);
    }
  }

  lemma SecondAt(g: Graph, g1: Graph, s: seq<Links>, yes: seq<nat>, no: seq<nat>, ns: seq<int>, b: int, target: int,
      k: nat)
    requires Linked(g, s, yes, no, ns, b) && GoodOpen(yes, s, true) && 0 <= b < |g| && k < |no| == |Ids(ns, no)|
    requires Patched(g, g1, Ids(ns, yes), target)
    ensures var x := Ids(ns, no)[k]; 0 <= x < |g| == |g1| && Link(FlipSense(g1, b)[x]) == Link(FlipSense(g, b)[x])
  {
    hide Resolved, Threaded;
    var i := no[k];
    assert IsOpen(s[i], false);
    assert SenseAt(g, s, ns, i);
    InIds(s, ns, yes, true, i);
    PatchedExits(g, g1, s, ns, yes, true, target, i);
  }

  lemma FragmentSecondList(g: Graph, g1: Graph, t: Tree<TestCode>, ns: seq<int>, b: int, target: int)
    requires Fragment(g, t, ns, b) && 0 <= b < |g| && Patched(g, g1, OpenIds(t, ns, true), target)
    ensures Chain(FlipSense(g1, b), b, OpenIds(t, ns, false))
    ensures forall k :: 0 <= k < |OpenIds(t, ns, false)| ==> OpenIds(t, ns, false)[k] in ns
  {
    OpenIsGood(t, true);
    SecondList(g, g1, Shape(t), Open(t, true), Open(t, false), ns, b, target);
  }

  lemma PatchedTwice(g: Graph, g1: Graph, g2: Graph, s: seq<Links>, yes: seq<nat>, no: seq<nat>, ns: seq<int>, b: int,
      y: int, n: int, i: nat)
    requires Linked(g, s, yes, no, ns, b) && GoodOpen(yes, s, true) && GoodOpen(no, s, false) && i < |ns|
    requires Patched(g, g1, Ids(ns, yes), y)
    requires Patched(FlipSense(g1, b), g2, Ids(ns, no), n)
    requires ResolvedAt(g, s, ns, i)
    ensures g2[ns[i]].stmts == g[ns[i]].stmts && g2[ns[i]].br == g[ns[i]].br
    ensures g2[ns[i]].jt == Target(s[i].jt, ns, y, n) && g2[ns[i]].jf == Target(s[i].jf, ns, y, n)
  {
    assert SenseAt(g, s, ns, i);
    hide Threaded, Resolved;
    PatchedExits(g, g1, s, ns, yes, true, y, i);
    InIds(s, ns, no, false, i);
  }

  lemma CloseFragment(g: Graph, g1: Graph, g2: Graph, t: Tree<TestCode>, ns: seq<int>, b: int, y: int, n: int)
    requires Fragment(g, t, ns, b) && 0 <= b < |g|
    requires Patched(g, g1, OpenIds(t, ns, true), y)
    requires Patched(FlipSense(g1, b), g2, OpenIds(t, ns, false), n)
    ensures Closed(g2, t, ns, y, n)
  {
    OpenIsGood(t, true);
    OpenIsGood(t, false);
    forall i | 0 <= i < |ns|
      ensures ClosedAt(g2, t, ns, y, n, i)
    {
      assert ResolvedAt(g, Shape(t), ns, i);
      PatchedTwice(g, g1, g2, Shape(t), Open(t, true), Open(t, false), ns, b, y, n, i);
    }
  }

  predicate IsRet(b: Block, v: Word) {
    b.stmts == [] && b.br == Stmt(RET + K, v) && b.jt == NULL && b.jf == NULL
  }

  class CodeGen {
    var blocks: Graph

    constructor ()
      ensures blocks == []
    {
      blocks := [];
    }

    /** Resolve every open exit on a list. */
    method Backpatch(list: int, target: int, ghost ids: seq<int>)
      requires Chain(blocks, list, ids)
      modifies this
      ensures Patched(old(blocks), blocks, ids, target)
    {
      var at := list;
      ghost var k := 0;
      while at >= 0
        invariant 0 <= k <= |ids| && at == Nth(ids, k)
        invariant Patched(old(blocks), blocks, ids[..k], target)
        decreases |ids| - k
      {
        assert ids[k] !in ids[..k];
        assert LinksOn(old(blocks), ids, k);
        var next := Link(blocks[at]);
        blocks := blocks[at := SetLink(blocks[at], target)];
        assert ids[..k + 1] == ids[..k] + [ids[k]];
        at, k := next, k + 1;
      }
      assert ids[..k] == ids;
    }

    /** Append the list that starts at b1 to the one that starts at b0. */
    method Merge(b0: int, b1: int, ghost ids: seq<int>)
      requires Chain(blocks, b0, ids) && |ids| > 0
      modifies this
      ensures var last := ids[|ids| - 1];
              blocks == old(blocks)[last := SetLink(old(blocks)[last], b1)]
    {
      var at := b0;
      ghost var k := 0;
      assert LinksOn(blocks, ids, 0);
      while Link(blocks[at]) >= 0
        invariant 0 <= k < |ids| && at == ids[k]
        decreases |ids| - k
      {
        assert LinksOn(blocks, ids, k);
        at, k := Link(blocks[at]), k + 1;
      }
      assert LinksOn(blocks, ids, k);
      blocks := blocks[at := SetLink(blocks[at], b1)];
    }

    method Flip(b: int)
      requires 0 <= b < |blocks|
      modifies this
      ensures blocks == FlipSense(old(blocks), b)
    {
      blocks := blocks[b := blocks[b].(sense := !blocks[b].sense)];
    }

    method GenAnd(b0: int, b1: int, ghost t0: Tree<TestCode>, ghost ns0: seq<int>, ghost t1: Tree<TestCode>,
        ghost ns1: seq<int>)
      requires Operands(blocks, t0, ns0, b0, t1, ns1, b1)
      modifies this
      ensures Fragment(blocks, Op(false, t0, t1), ns0 + ns1, b1)
      ensures SameOutside(old(blocks), blocks, ns0, ns1)
    {
      hide Fragment, OpenIds, SameOutside;
      ghost var ids1 := OpenIds(t1, ns1, false);
      FragmentChain(blocks, t0, ns0, b0, true);
      FragmentChain(blocks, t1, ns1, b1, false);
      Backpatch(b0, blocks[b1].head, OpenIds(t0, ns0, true));
      MergeList(old(blocks), blocks, false, t0, ns0, b0, t1, ns1, b1);
      PatchJoins(old(blocks), blocks, false, t0, ns0, b0, t1, ns1, b1, ids1[|ids1| - 1]);
      Flip(b0);
      Flip(b1);
      Merge(b1, b0, ids1);
      Flip(b1);
      blocks := blocks[b1 := blocks[b1].(head := blocks[b0].head)];
    }

    method GenOr(b0: int, b1: int, ghost t0: Tree<TestCode>, ghost ns0: seq<int>, ghost t1: Tree<TestCode>,
        ghost ns1: seq<int>)
      requires Operands(blocks, t0, ns0, b0, t1, ns1, b1)
      modifies this
      ensures Fragment(blocks, Op(true, t0, t1), ns0 + ns1, b1)
      ensures SameOutside(old(blocks), blocks, ns0, ns1)
    {
      hide Fragment, OpenIds, SameOutside;
      ghost var ids1 := OpenIds(t1, ns1, true);
      FragmentChain(blocks, t0, ns0, b0, false);
      FragmentChain(blocks, t1, ns1, b1, true);
      Flip(b0);
      Backpatch(b0, blocks[b1].head, OpenIds(t0, ns0, false));
      MergeList(old(blocks), blocks, true, t0, ns0, b0, t1, ns1, b1);
      PatchJoins(old(blocks), blocks, true, t0, ns0, b0, t1, ns1, b1, ids1[|ids1| - 1]);
      Flip(b0);
      Merge(b1, b0, ids1);
      blocks := blocks[b1 := blocks[b1].(head := blocks[b0].head)];
    }

    method GenNot(b: int, ghost t: Tree<TestCode>, ghost ns: seq<int>)
      requires Fragment(blocks, t, ns, b)
      modifies this
      ensures Fragment(blocks, Not(t), ns, b)
      ensures SameOutside(old(blocks), blocks, ns, [])
    {
      NegatedFragment(blocks, t, ns, b);
      Flip(b);
    }

    /** Allocate a zeroed block (new_block). */
    method NewBlock(c: TestCode) returns (b: int)
      modifies this
      ensures b == |old(blocks)| && blocks == old(blocks) + [Block(c.stmts, c.br, NULL, NULL, false, b)]
      ensures Fragment(blocks, Prim(c), [b], b)
    {
      b := |blocks|;
      blocks := blocks + [Block(c.stmts, c.br, NULL, NULL, false, b)];
      assert ThreadedAt(blocks, Shape(Prim(c)), [b], Open(Prim(c), true), true, 0);
      assert ThreadedAt(blocks, Shape(Prim(c)), [b], Open(Prim(c), false), false, 0);
    }

    /** Emit the code of an expression the way the parser does, operands before operators and
        left before right. */
    method GenTree(t: Tree<TestCode>) returns (b: int, ghost ns: seq<int>)
      modifies this
      ensures Fragment(blocks, t, ns, b)
      ensures |old(blocks)| <= |blocks| && blocks[..|old(blocks)|] == old(blocks)
      ensures forall i :: 0 <= i < |ns| ==> ns[i] >= |old(blocks)|
      decreases t
    {
      hide Fragment;
      match t {
        case Prim(c) =>
          b := NewBlock(c);
          ns := [b];
        case Not(u) =>
          b, ns := GenTree(u);
          GenNot(b, u, ns);
        case Op(or, u, v) =>
          var b0;
          ghost var ns0, ns1;
          b0, ns0 := GenTree(u);
          ghost var g := blocks;
          b, ns1 := GenTree(v);
          FragmentFrame(g, blocks, u, ns0, b0);
          FragmentIndices(g, u, ns0, b0);
          if or {
            GenOr(b0, b, u, ns0, v, ns1);
          } else {
            GenAnd(b0, b, u, ns0, v, ns1);
          }
          ns := ns0 + ns1;
      }
    }

    /** Insert the statements that compute variable offsets before those of the expression's first
        block, put the check of the packet's link type in front if there is one, and close the whole
        with the two return blocks; the result is the root of the graph. */
    method FinishParse(pre: seq<Stmt>, check: Option<TestCode>, p: int, snaplen: Word, ghost t: Tree<TestCode>,
        ghost ns: seq<int>)
        returns (root: int, ghost ns': seq<int>, ghost y: int, ghost n: int)
      requires Fragment(blocks, t, ns, p)
      modifies this
      ensures ns' == (if check.Some? then [|old(blocks)|] else []) + ns && root == ns'[0]
      ensures Closed(blocks, Whole(t, pre, check), ns', y, n)
      ensures y == |old(blocks)| + (if check.Some? then 1 else 0) && n == y + 1 && |blocks| == n + 1
      ensures IsRet(blocks[y], snaplen) && IsRet(blocks[n], 0)
    {
      hide Fragment, Closed, IsRet, Prefixed;
      FragmentIndices(blocks, t, ns, p);
      ghost var g := blocks;
      var head := blocks[p].head;
      blocks := blocks[head := blocks[head].(stmts := pre + blocks[head].stmts)];
      FragmentPrefixed(g, blocks, t, pre, ns, p);
      ghost var u := Prefixed(t, pre);
      ns' := ns;
      if check.Some? {
        ghost var g1 := blocks;
        var b := NewBlock(check.value);
        FragmentFrame(g1, blocks, u, ns, p);
        GenAnd(b, p, Prim(check.value), [b], u, ns);
        u, ns' := Op(false, Prim(check.value), u), [b] + ns;
      }
      root, y, n := Close(p, snaplen, u, ns');
    }

    /** The two return blocks. */
    method Close(p: int, snaplen: Word, ghost t: Tree<TestCode>, ghost ns: seq<int>)
        returns (root: int, ghost y: int, ghost n: int)
      requires Fragment(blocks, t, ns, p)
      modifies this
      ensures Closed(blocks, t, ns, y, n) && root == ns[0]
      ensures |blocks| == |old(blocks)| + 2 && y == |old(blocks)| && n == y + 1
      ensures IsRet(blocks[y], snaplen) && IsRet(blocks[n], 0)
    {
      var accept := NewBlock(TestCode([], Stmt(RET + K, snaplen)));
      ghost var g := blocks;
      FragmentFrame(old(blocks), g, t, ns, p);
      FragmentChain(g, t, ns, p, true);
      FragmentIndices(old(blocks), t, ns, p);
      hide Fragment, OpenIds, Closed;
      Backpatch(p, accept, OpenIds(t, ns, true));
      ghost var g1 := blocks;
      Flip(p);
      var reject := NewBlock(TestCode([], Stmt(RET + K, 0)));
      ghost var more := [blocks[reject]];
      assert Fragment(g + more, t, ns, p) by { FragmentFrame(g, g + more, t, ns, p); }
      assert Patched(g + more, g1 + more, OpenIds(t, ns, true), accept);
      assert blocks == FlipSense(g1 + more, p);
      FragmentSecondList(g + more, g1 + more, t, ns, p, accept);
      Backpatch(p, reject, OpenIds(t, ns, false));
      CloseFragment(g + more, g1 + more, blocks, t, ns, p, accept, reject);
      root, y, n := blocks[p].head, accept, reject;
      PatchedElsewhere(FlipSense(g1 + more, p), blocks, OpenIds(t, ns, false), ns, reject);
      PatchedElsewhere(g + more, g1 + more, OpenIds(t, ns, true), ns, accept);
    }
  }
}
