/**
 Levels, dominators and edge dominators of the optimizer: find_levels, find_dom and find_edom
 of deps/libpcap/optimize.c.  A block's id is its index; the true edge of block b has id b
 and its false edge has id n + b, where n is the number of blocks.  Bit sets are sets.
 */
module Dominators {
  import opened Basics
  import opened Flow
  import opened Order
  import opened Dominance

  // ----- levels -----

  /** The length of the longest path from b to a leaf. */
  ghost function Level(g: Graph, rank: map<int, nat>, b: int): nat
    requires Ranked(g, rank) && b in rank
    decreases rank[b]
  {
    if Leaf(g[b]) then 0 else 1 + Max(Level(g, rank, g[b].jt), Level(g, rank, g[b].jf))
  }

  /** Levels fall along every edge. */
  lemma LevelFalls(g: Graph, rank: map<int, nat>, b: int)
    requires Ranked(g, rank) && b in rank && !Leaf(g[b])
    ensures Level(g, rank, g[b].jt) < Level(g, rank, b) && Level(g, rank, g[b].jf) < Level(g, rank, b)
  {
  }

  /** The i-th block that a walk finishes has a level of at most i. */
  lemma {:induction false} LevelBound(g: Graph, rank: map<int, nat>, s: seq<int>, i: nat)
    requires Ranked(g, rank) && Finished(g, s) && i < |s| && forall k :: 0 <= k < |s| ==> s[k] in rank
    ensures Level(g, rank, s[i]) <= i
    decreases i
  {
    hide BlockOk;
    if !Leaf(g[s[i]]) {
      assert SuccsIn(g, s[i], Elems(s[..i]));
      var j :| 0 <= j < i && s[j] == g[s[i]].jt;
      var k :| 0 <= k < i && s[k] == g[s[i]].jf;
      LevelBound(g, rank, s, j);
      LevelBound(g, rank, s, k);
    }
  }

  lemma {:induction false} PigeonHole(s: seq<int>, n: nat)
    requires Distinct(s) && forall i :: 0 <= i < |s| ==> 0 <= s[i] < n
    ensures |s| <= n
  {
    if |s| > 0 {
      assert 0 <= s[0] < n;
      if n - 1 in s {
        var k :| 0 <= k < |s| && s[k] == n - 1;
        Removed(s, k);
        var t := s[..k] + s[k + 1..];
        forall i | 0 <= i < |t| ensures 0 <= t[i] < n - 1 {
          assert t[i] in Elems(t);
        }
        PigeonHole(t, n - 1);
      } else {
        PigeonHole(s, n - 1);
      }
    }
  }

  // ----- the graphs of blocks and of edges -----

  function Succs(g: Graph, b: int): set<int>
    requires 0 <= b < |g|
  {
    if Leaf(g[b]) then {} else {g[b].jt, g[b].jf}
  }

  ghost function BlockGraph(g: Graph): Adjacency {
    seq(|g|, b requires 0 <= b < |g| => Succs(g, b))
  }

  /** The block that an edge leaves. */
  function Pred(g: Graph, e: int): int
    requires 0 <= e < 2 * |g|
  {
    if e < |g| then e else e - |g|
  }

  /** Where an edge leads, or NULL. */
  function EdgeSucc(g: Graph, e: int): int
    requires 0 <= e < 2 * |g|
  {
    var b := g[Pred(g, e)];
    if Leaf(b) then NULL else if e < |g| then b.jt else b.jf
  }

  /** The edges that follow an edge. */
  function NextEdges(g: Graph, e: int): set<int>
    requires 0 <= e < 2 * |g|
  {
    var t := EdgeSucc(g, e);
    if t < 0 then {} else {t, |g| + t}
  }

  ghost function EdgeGraph(g: Graph): Adjacency {
    seq(2 * |g|, e requires 0 <= e < 2 * |g| => NextEdges(g, e))
  }

  // ----- what a walk visits is what can be reached -----

  lemma {:induction false} VisitReaches(g: Graph, rank: map<int, nat>, root: int, b: int, seen: set<int>,
      jfFirst: bool, x: int)
    requires Ranked(g, rank) && b in rank && Reachable(BlockGraph(g), {root}, b)
    requires x in Visit(g, rank, b, seen, jfFirst)
    ensures Reachable(BlockGraph(g), {root}, x)
    decreases rank[b]
  {
    hide BlockOk;
    if x != b {
      var p :| PathTo(BlockGraph(g), {root}, p, b);
      var c, d := Child(g[b], jfFirst), Child(g[b], !jfFirst);
      ExtendPath(BlockGraph(g), {root}, p, b, c);
      ExtendPath(BlockGraph(g), {root}, p, b, d);
      var first := Visit(g, rank, c, seen + {b}, jfFirst);
      if x in first {
        VisitReaches(g, rank, root, c, seen + {b}, jfFirst, x);
      } else {
        VisitReaches(g, rank, root, d, seen + {b} + Elems(first), jfFirst, x);
      }
    }
  }

  lemma {:induction false} PathInside(g: Graph, root: int, s: set<int>, p: seq<int>)
    requires ClosedSet(g, s) && root in s && Path(BlockGraph(g), {root}, p)
    ensures p[|p| - 1] in s
    decreases |p|
  {
    if |p| > 1 {
      ShortenPath(BlockGraph(g), {root}, p, p[|p| - 1]);
      PathInside(g, root, s, p[..|p| - 1]);
    }
  }

  /** A block is reachable if and only if the walk from the root visits it. */
  lemma VisitedIffReachable(g: Graph, rank: map<int, nat>, root: int, b: int)
    requires Ranked(g, rank) && root in rank
    ensures b in WalkOrder(g, rank, root) <==> Reachable(BlockGraph(g), {root}, b)
  {
    var s := WalkOrder(g, rank, root);
    WholeWalk(g, rank, root, true);
    if b in s {
      assert PathTo(BlockGraph(g), {root}, [root], root);
      VisitReaches(g, rank, root, root, {}, true, b);
    }
    if Reachable(BlockGraph(g), {root}, b) {
      var p :| PathTo(BlockGraph(g), {root}, p, b);
      assert root in Elems(s);
      PathInside(g, root, Elems(s), p);
    }
  }

  // ----- edges -----

  /** Every link leads to a block. */
  ghost predicate WellLinked(g: Graph) {
    forall b :: 0 <= b < |g| && !Leaf(g[b]) ==> 0 <= g[b].jt < |g| && 0 <= g[b].jf < |g|
  }

  function RootEdges(g: Graph, root: int): set<int> { {root, |g| + root} }

  lemma {:induction false} EdgePathDown(g: Graph, root: int, q: seq<int>)
    requires WellLinked(g) && 0 <= root < |g| && Path(EdgeGraph(g), RootEdges(g, root), q)
    ensures Reachable(BlockGraph(g), {root}, Pred(g, q[|q| - 1]))
    decreases |q|
  {
    var e := q[|q| - 1];
    if |q| == 1 {
      assert PathTo(BlockGraph(g), {root}, [root], root);
    } else {
      var a := q[|q| - 2];
      ShortenPath(EdgeGraph(g), RootEdges(g, root), q, e);
      EdgePathDown(g, root, q[..|q| - 1]);
      var p :| PathTo(BlockGraph(g), {root}, p, Pred(g, a));
      assert e in NextEdges(g, a);
      ExtendPath(BlockGraph(g), {root}, p, Pred(g, a), Pred(g, e));
    }
  }

  lemma {:induction false} BlockPathUp(g: Graph, root: int, p: seq<int>, e: int)
    requires WellLinked(g) && 0 <= root < |g| && PathTo(BlockGraph(g), {root}, p, if e < |g| then e else e - |g|)
    requires 0 <= e < 2 * |g|
    ensures Reachable(EdgeGraph(g), RootEdges(g, root), e)
    decreases |p|
  {
    var b := Pred(g, e);
    if |p| == 1 {
      assert PathTo(EdgeGraph(g), RootEdges(g, root), [e], e);
    } else {
      ShortenPath(BlockGraph(g), {root}, p, b);
      var a := p[|p| - 2];
      assert b in Succs(g, a);
      var f := if g[a].jt == b then a else |g| + a;
      BlockPathUp(g, root, p[..|p| - 1], f);
      var q :| PathTo(EdgeGraph(g), RootEdges(g, root), q, f);
      assert e in NextEdges(g, f);
      ExtendPath(EdgeGraph(g), RootEdges(g, root), q, f, e);
    }
  }

  /** An edge can be reached exactly when its block can. */
  lemma EdgeReachable(g: Graph, root: int, e: int)
    requires WellLinked(g) && 0 <= root < |g| && 0 <= e < 2 * |g|
    ensures Reachable(EdgeGraph(g), RootEdges(g, root), e) <==> Reachable(BlockGraph(g), {root}, Pred(g, e))
  {
    if Reachable(EdgeGraph(g), RootEdges(g, root), e) {
      var q :| PathTo(EdgeGraph(g), RootEdges(g, root), q, e);
      EdgePathDown(g, root, q);
    }
    if Reachable(BlockGraph(g), {root}, Pred(g, e)) {
      var p :| PathTo(BlockGraph(g), {root}, p, Pred(g, e));
      BlockPathUp(g, root, p, e);
    }
  }

  // ----- processing in level order -----

  /** The blocks of each level, each once. */
  ghost predicate LevelLists(g: Graph, rank: map<int, nat>, visited: set<int>, levels: seq<seq<int>>)
    requires Ranked(g, rank)
  {
    && (forall l :: 0 <= l < |levels| ==> Distinct(levels[l]))
    && (forall b :: b in visited ==> b in rank && Level(g, rank, b) < |levels| && b in levels[Level(g, rank, b)])
    && (forall l, i :: 0 <= l < |levels| && 0 <= i < |levels[l]| ==>
          levels[l][i] in visited && levels[l][i] in rank && Level(g, rank, levels[l][i]) == l)
  }

  /** The blocks above level l, and the first j of level l itself. */
  ghost predicate DoneUpTo(g: Graph, rank: map<int, nat>, visited: set<int>, levels: seq<seq<int>>, done: set<int>,
      l: int, j: nat)
    requires Ranked(g, rank) && visited <= rank.Keys
  {
    forall b :: b in done <==>
      b in visited && (Level(g, rank, b) > l || (0 <= l < |levels| && j <= |levels[l]| && b in levels[l][..j]))
  }

  ghost predicate Walked(g: Graph, rank: map<int, nat>, root: int, visited: set<int>) {
    && Ranked(g, rank) && root in rank
    && visited == Elems(WalkOrder(g, rank, root))
  }

  /** The next block in level order is ready: all its predecessors lie on higher levels. */
  lemma BlockReady(g: Graph, rank: map<int, nat>, root: int, visited: set<int>, levels: seq<seq<int>>, done: set<int>,
      l: nat, j: nat)
    requires Walked(g, rank, root, visited) && visited <= rank.Keys && LevelLists(g, rank, visited, levels)
    requires l < |levels| && j < |levels[l]| && DoneUpTo(g, rank, visited, levels, done, l, j)
    ensures var b := levels[l][j];
      && b in rank && 0 <= b < |g| && Ready(BlockGraph(g), {root}, done, b)
      && (forall t :: t in BlockGraph(g)[b] ==> t !in done)
      && DoneUpTo(g, rank, visited, levels, done + {b}, l, j + 1)
  {
    hide Ranked, WalkOrder, BlockGraph, Level, Elems, Reachable;
    var b, adj := levels[l][j], BlockGraph(g);
    VisitedReachable(g, rank, root, b);
    assert b !in levels[l][..j];
    BlockEdges(g, rank, b);
    forall a | 0 <= a < |adj| && b in adj[a] && Reachable(adj, {root}, a)
      ensures a in done
    {
      VisitedReachable(g, rank, root, a);
      BlockEdges(g, rank, a);
    }
    assert levels[l][..j + 1] == levels[l][..j] + [b];
  }

  lemma VisitedReachable(g: Graph, rank: map<int, nat>, root: int, b: int)
    requires Ranked(g, rank) && root in rank
    ensures b in Elems(WalkOrder(g, rank, root)) <==> Reachable(BlockGraph(g), {root}, b)
  {
    hide WalkOrder, Reachable;
    VisitedIffReachable(g, rank, root, b);
  }

  /** Successors are in the numbering and lie on lower levels. */
  lemma BlockEdges(g: Graph, rank: map<int, nat>, b: int)
    requires Ranked(g, rank) && b in rank
    ensures 0 <= b < |g| == |BlockGraph(g)|
    ensures forall t :: t in BlockGraph(g)[b] ==> t in rank && Level(g, rank, t) < Level(g, rank, b)
  {
    hide BlockOk;
    if !Leaf(g[b]) { LevelFalls(g, rank, b); }
    hide Level;
  }

  /** Both edges of each of the blocks. */
  ghost function EdgesOf(g: Graph, blocks: set<int>): set<int> {
    blocks + set b | b in blocks :: |g| + b
  }

  /** Both edges of the next block are ready. */
  lemma EdgeReady(g: Graph, rank: map<int, nat>, root: int, done: set<int>, b: int, false_: bool)
    requires Ranked(g, rank) && WellLinked(g) && 0 <= root < |g| && 0 <= b < |g|
    requires done <= rank.Keys && Ready(BlockGraph(g), {root}, done, b)
    requires forall t :: t in BlockGraph(g)[b] ==> t !in done
    ensures var e, edone := if false_ then |g| + b else b, if false_ then EdgesOf(g, done) + {b} else EdgesOf(g, done);
      && Ready(EdgeGraph(g), RootEdges(g, root), edone, e)
      && forall t :: t in EdgeGraph(g)[e] ==> t !in edone
  {
    hide Ranked, Reachable, EdgeGraph, BlockGraph, RootEdges, EdgeSucc, WellLinked, EdgesOf;
    var e, edone := if false_ then |g| + b else b, if false_ then EdgesOf(g, done) + {b} else EdgesOf(g, done);
    var adj := EdgeGraph(g);
    EdgeReachable(g, root, e);
    EdgesOfDone(g, done, rank);
    EdgeInto(g, e, e);
    forall a | 0 <= a < |adj| && e in adj[a] && Reachable(adj, RootEdges(g, root), a)
      ensures a in edone
    {
      EdgeInto(g, a, e);
      EdgeReachable(g, root, a);
    }
    forall t | t in adj[e] ensures t !in edone {
      EdgeTarget(g, e, t);
      EdgeInto(g, e, t);
    }
  }

  lemma EdgesOfDone(g: Graph, done: set<int>, rank: map<int, nat>)
    requires done <= rank.Keys && Ranked(g, rank)
    ensures forall e :: 0 <= e < 2 * |g| ==> (e in EdgesOf(g, done) <==> Pred(g, e) in done)
  {
    hide BlockOk;
  }

  /** One edge follows another if it leaves the block to which the other leads. */
  lemma EdgeInto(g: Graph, a: int, e: int)
    requires WellLinked(g) && 0 <= a < 2 * |g| && 0 <= e < 2 * |g|
    ensures |EdgeGraph(g)| == 2 * |g| && |BlockGraph(g)| == |g|
    ensures e in EdgeGraph(g)[a] <==> EdgeSucc(g, a) == Pred(g, e)
    ensures e in EdgeGraph(g)[a] ==> Pred(g, e) in BlockGraph(g)[Pred(g, a)]
  {
    assert EdgeGraph(g)[a] == NextEdges(g, a) && BlockGraph(g)[Pred(g, a)] == Succs(g, Pred(g, a));
  }

  lemma EdgeTarget(g: Graph, e: int, t: int)
    requires WellLinked(g) && 0 <= e < 2 * |g| == |EdgeGraph(g)| && t in EdgeGraph(g)[e]
    ensures 0 <= t < 2 * |g|
  {
  }

  // ----- the passes -----

  ghost predicate LevelsHold(g: Graph, rank: map<int, nat>, done: seq<int>, level: seq<nat>, levels: seq<seq<int>>)
    requires Ranked(g, rank)
  {
    && |level| == |levels| == |g|
    && LevelLists(g, rank, Elems(done), levels)
    && forall i :: 0 <= i < |done| ==>
      done[i] in rank && 0 <= done[i] < |g| && level[done[i]] == Level(g, rank, done[i])
  }

  lemma LevelsStart(g: Graph, rank: map<int, nat>, level: seq<nat>)
    requires Ranked(g, rank) && |level| == |g|
    ensures LevelsHold(g, rank, [], level, seq(|g|, _ => []))
  {
  }

  /** Entering a finished block in its level list. */
  lemma LevelsExtend(g: Graph, rank: map<int, nat>, done: seq<int>, level: seq<nat>, levels: seq<seq<int>>, b: int,
      l: nat)
    requires Ranked(g, rank) && LevelsHold(g, rank, done, level, levels)
    requires b in rank && 0 <= b < |g| && b !in done && l == Level(g, rank, b) < |g|
    ensures LevelsHold(g, rank, done + [b], level[b := l], levels[l := [b] + levels[l]])
  {
    hide BlockOk, Level;
    var levels', done' := levels[l := [b] + levels[l]], done + [b];
    ElemsAppend(done, [b]);
    assert Elems([b]) == {b};
    assert b !in levels[l];
    forall x | x in Elems(done')
      ensures x in rank && Level(g, rank, x) < |levels'| && x in levels'[Level(g, rank, x)]
    {
      if x != b { assert x in Elems(done); assert x in levels[Level(g, rank, x)]; }
      else { assert levels'[l][0] == b; }
    }
  }

  class Analysis {
    const g: Graph
    const root: int
    ghost const rank: map<int, nat>
    var mark: seq<int>
    var curMark: int
    var level: seq<nat>
    var levels: seq<seq<int>>
    var dom: seq<set<int>>
    var edom: seq<set<int>>

    ghost predicate MarksAre(seen: set<int>)
      reads this`mark, this`curMark
    {
      && |mark| == |g|
      && forall b :: 0 <= b < |g| ==> mark[b] <= curMark && (mark[b] == curMark <==> b in seen)
    }

    constructor (g: Graph, root: int, ghost rank: map<int, nat>)
      requires Ranked(g, rank) && root in rank
      ensures this.g == g && this.root == root && this.rank == rank
      ensures |mark| == |level| == |g| && forall b :: 0 <= b < |g| ==> mark[b] <= curMark
    {
      this.g := g;
      this.root := root;
      this.rank := rank;
      mark := seq(|g|, _ => 0);
      curMark := 0;
      level := seq(|g|, _ => 0);
      levels := [];
      dom := [];
      edom := [];
    }

    /** Number b and the unmarked blocks below it. */
    method FindLevelsR(b: int, ghost done: seq<int>, ghost path: set<int>)
      requires Ranked(g, rank) && b in rank && OnPath(rank, path, b)
      requires Finished(g, done) && MarksAre(Elems(done) + path) && LevelsHold(g, rank, done, level, levels)
      modifies this`mark, this`level, this`levels
      ensures var done' := done + Walk(g, rank, b, Elems(done) + path, false);
        && Finished(g, done') && b in done'
        && MarksAre(Elems(done') + path) && LevelsHold(g, rank, done', level, levels)
      decreases rank[b], 1
    {
      hide BlockOk, Visit, Walk, Elems, Finished, LevelsHold, OnPath, Level, Ranked;
      WalkFinishes(g, rank, b, done, path, false);
      RankedIndices(g, rank);
      if mark[b] == curMark {
        WalkNothing(g, rank, b, Elems(done) + path, false, _ => 0);
        assert done + [] == done;
        return;
      }
      mark := mark[b := curMark];
      ghost var first, second := WalkParts(g, rank, b, done, path, false);
      ghost var last := done + first + second;
      LevelsShape(g, rank, done, level, levels);
      var l := LevelBelow(b, done, path, first, second);
      assert last + [b] == done + (first + second + [b]);
      LevelsLast(g, rank, last, level, levels, b, l);
      SumElems(last, b, _ => 0);
      LevelsShape(g, rank, last, level, levels);
      level := level[b := l];
      levels := levels[l := [b] + levels[l]];
    }

    /** Number the blocks below b, which is marked, and compute the level of b. */
    method LevelBelow(b: int, ghost done: seq<int>, ghost path: set<int>, ghost first: seq<int>, ghost second: seq<int>)
        returns (l: nat)
      requires Ranked(g, rank) && b in rank && 0 <= b < |g| && Below(rank, b, g[b].jt) && Below(rank, b, g[b].jf)
      requires g[b].jf >= 0 ==> OnPath(rank, path + {b}, g[b].jf)
      requires g[b].jt >= 0 ==> OnPath(rank, path + {b}, g[b].jt)
      requires first == Walk(g, rank, g[b].jt, Elems(done) + (path + {b}), false)
      requires second == Walk(g, rank, g[b].jf, Elems(done + first) + (path + {b}), false)
      requires Finished(g, done) && MarksAre(Elems(done) + (path + {b})) && LevelsHold(g, rank, done, level, levels)
      modifies this`mark, this`level, this`levels
      ensures MarksAre(Elems(done + first + second) + (path + {b}))
      ensures LevelsHold(g, rank, done + first + second, level, levels)
      ensures Leaf(g[b]) ==> l == 0
      ensures !Leaf(g[b]) ==>
        g[b].jt in rank && g[b].jf in rank && l == Max(Level(g, rank, g[b].jt), Level(g, rank, g[b].jf)) + 1
      decreases rank[b], 0
    {
      hide BlockOk, Visit, Walk, Elems, Finished, LevelsHold, OnPath, Level, Ranked;
      ghost var last := done + first + second;
      if Leaf(g[b]) {
        LeafWalk(g, rank, b, Elems(done) + (path + {b}), first, second);
        assert last == done;
        return 0;
      }
      NotLeaf(g, rank, b);
      FindLevelsR(g[b].jt, done, path + {b});
      FindLevelsR(g[b].jf, done + first, path + {b});
      LevelsRead(g, rank, last, level, levels, g[b].jt);
      LevelsRead(g, rank, last, level, levels, g[b].jf);
      l := Max(level[g[b].jt], level[g[b].jf]) + 1;
    }

    /** Level every block that the root leads to. */
    method FindLevels()
      requires Ranked(g, rank) && root in rank && |mark| == |level| == |g|
      requires forall b :: 0 <= b < |g| ==> mark[b] <= curMark
      modifies this`mark, this`curMark, this`level, this`levels
      ensures LevelsHold(g, rank, Visit(g, rank, root, {}, false), level, levels)
    {
      hide Visit, Elems, LevelsHold, Level, Ranked, Finished;
      levels := seq(|g|, _ => []);
      curMark := curMark + 1;
      LevelsStart(g, rank, level);
      StartWalk(g, rank, root);
      assert MarksAre({});
      FindLevelsR(root, [], {});
      assert [] + Visit(g, rank, root, {}, false) == Visit(g, rank, root, {}, false);
    }

    /** Dominators: every block enters its own set and cuts down those of its successors, level
        by level from the root. */
    method FindDom(ghost visited: set<int>)
      requires Leveled(g, rank, root, visited, level, levels)
      modifies this`dom
      ensures |dom| == |g|
      ensures forall b, d :: b in visited ==> (d in dom[b] <==> Dominates(BlockGraph(g), {root}, d, b))
    {
      hide Ranked, Level, LevelLists, Progress, BlockGraph, DoneUpTo, WalkOrder, Elems;
      var n := |g|;
      dom := seq(n, b => if b == root then {} else Everything(n));
      ghost var done: set<int> := {};
      ghost var adj := BlockGraph(g);
      BlockGraphSize(g);
      InitialProgress(adj, {root});
      assert dom == Initial(n, {root});
      NothingDone(g, rank, root, visited, level, levels);
      var i: int := level[root];
      while i >= 0
        invariant -1 <= i < |levels| && |dom| == n
        invariant Progress(adj, {root}, dom, done) && DoneUpTo(g, rank, visited, levels, done, i, 0)
      {
        for j := 0 to |levels[i]|
          invariant |dom| == n && Progress(adj, {root}, dom, done) && DoneUpTo(g, rank, visited, levels, done, i, j)
        {
          var b := levels[i][j];
          BlockReady(g, rank, root, visited, levels, done, i, j);
          Step(adj, {root}, dom, done, b);
          BlockProcessed(g, rank, dom, b);
          dom := dom[b := dom[b] + {b}];
          if !Leaf(g[b]) {
            dom := dom[g[b].jt := dom[g[b].jt] * dom[b]];
            dom := dom[g[b].jf := dom[g[b].jf] * dom[b]];
          }
          done := done + {b};
        }
        LevelDone(g, rank, visited, levels, done, i);
        i := i - 1;
      }
      AllDone(g, rank, root, visited, levels, dom, done);
    }

    /** One edge enters its own set and cuts down those of the edges that follow it. */
    method PropEdom(e: int, ghost done: set<int>)
      requires WellLinked(g) && 0 <= root < |g| && 0 <= e < 2 * |g| == |edom| && EdgeSucc(g, e) != Pred(g, e)
      requires Progress(EdgeGraph(g), RootEdges(g, root), edom, done)
      requires Ready(EdgeGraph(g), RootEdges(g, root), done, e)
      requires forall t :: t in EdgeGraph(g)[e] ==> t !in done
      modifies this`edom
      ensures |edom| == 2 * |g| && Progress(EdgeGraph(g), RootEdges(g, root), edom, done + {e})
    {
      hide Progress, Ready;
      Step(EdgeGraph(g), RootEdges(g, root), edom, done, e);
      EdgeProcessed(g, edom, e);
      hide EdgeGraph, RootEdges, Processed;
      var t := EdgeSucc(g, e);
      edom := edom[e := edom[e] + {e}];
      if t >= 0 {
        edom := edom[t := edom[t] * edom[e]];
        edom := edom[|g| + t := edom[|g| + t] * edom[e]];
      }
    }

    /** Edge dominators, level by level from the root. */
    method FindEdom(ghost visited: set<int>)
      requires Leveled(g, rank, root, visited, level, levels) && WellLinked(g)
      modifies this`edom
      ensures |edom| == 2 * |g|
      ensures forall e, d :: 0 <= e < 2 * |g| && Pred(g, e) in visited ==>
        (d in edom[e] <==> Dominates(EdgeGraph(g), RootEdges(g, root), d, e))
    {
      hide Ranked, Level, LevelLists, Progress, Ready, BlockGraph, EdgeGraph, DoneUpTo, WalkOrder, Elems, WellLinked;
      var n := |g|;
      edom := seq(2 * n, e => if e == root || e == n + root then {} else Everything(2 * n));
      ghost var done: set<int> := {};
      ghost var entry := RootEdges(g, root);
      EdgeGraphSize(g);
      InitialProgress(EdgeGraph(g), entry);
      assert edom == Initial(2 * n, entry);
      NothingDone(g, rank, root, visited, level, levels);
      var i: int := level[root];
      while i >= 0
        invariant -1 <= i < |levels| && |edom| == 2 * n && done <= rank.Keys
        invariant Progress(EdgeGraph(g), entry, edom, EdgesOf(g, done))
        invariant DoneUpTo(g, rank, visited, levels, done, i, 0)
      {
        for j := 0 to |levels[i]|
          invariant |edom| == 2 * n && done <= rank.Keys
          invariant Progress(EdgeGraph(g), entry, edom, EdgesOf(g, done))
          invariant DoneUpTo(g, rank, visited, levels, done, i, j)
        {
          var b := levels[i][j];
          BlockReady(g, rank, root, visited, levels, done, i, j);
          EdgeReady(g, rank, root, done, b, false);
          EdgeReady(g, rank, root, done, b, true);
          NoSelfEdge(g, rank, b);
          PropEdom(b, EdgesOf(g, done));
          PropEdom(n + b, EdgesOf(g, done) + {b});
          assert EdgesOf(g, done + {b}) == EdgesOf(g, done) + {b} + {n + b};
          done := done + {b};
        }
        LevelDone(g, rank, visited, levels, done, i);
        i := i - 1;
      }
      AllEdgesDone(g, rank, root, visited, levels, edom, done);
    }

    /** Levels, dominators and edge dominators of the current graph, in the order in which the
        optimizer's loop computes them. */
    method Analyze()
      requires Ranked(g, rank) && root in rank && WellLinked(g)
      requires |mark| == |level| == |g| && forall b :: 0 <= b < |g| ==> mark[b] <= curMark
      modifies this
      ensures |level| == |dom| == |g| && |edom| == 2 * |g|
      ensures forall b :: Reachable(BlockGraph(g), {root}, b) ==>
        b in rank && 0 <= b < |g| && level[b] == Level(g, rank, b)
      ensures forall b, d :: 0 <= b < |g| && Reachable(BlockGraph(g), {root}, b) ==>
        (d in dom[b] <==> Dominates(BlockGraph(g), {root}, d, b))
      ensures forall e, d :: 0 <= e < 2 * |g| && Reachable(EdgeGraph(g), RootEdges(g, root), e) ==>
        (d in edom[e] <==> Dominates(EdgeGraph(g), RootEdges(g, root), d, e))
    {
      hide Ranked, Level, LevelLists, LevelsHold, BlockGraph, EdgeGraph, WellLinked, Reachable, Dominates, Visit, Elems;
      FindLevels();
      LevelsFound(g, rank, root, level, levels);
      ghost var visited := Elems(WalkOrder(g, rank, root));
      FindDom(visited);
      FindEdom(visited);
      VisitedFacts(g, rank, root, visited);
      forall b | Reachable(BlockGraph(g), {root}, b)
        ensures b in rank && 0 <= b < |g| && level[b] == Level(g, rank, b)
      {
        VisitedOtherWalk(g, rank, root, b);
        LevelsRead(g, rank, Visit(g, rank, root, {}, false), level, levels, b);
        LevelsShape(g, rank, Visit(g, rank, root, {}, false), level, levels);
      }
    }
  }

  lemma VisitedOtherWalk(g: Graph, rank: map<int, nat>, root: int, b: int)
    requires Ranked(g, rank) && root in rank && Reachable(BlockGraph(g), {root}, b)
    ensures b in Visit(g, rank, root, {}, false)
  {
    VisitedIffReachable(g, rank, root, b);
    WalksAgree(g, rank, root);
    assert b in Elems(Visit(g, rank, root, {}, true));
  }

  lemma VisitedFacts(g: Graph, rank: map<int, nat>, root: int, visited: set<int>)
    requires Ranked(g, rank) && root in rank && WellLinked(g) && visited == Elems(WalkOrder(g, rank, root))
    ensures forall b :: Reachable(BlockGraph(g), {root}, b) ==> b in visited
    ensures forall e :: 0 <= e < 2 * |g| && Reachable(EdgeGraph(g), RootEdges(g, root), e) ==> Pred(g, e) in visited
  {
    hide Reachable, Visit;
    RankedIndices(g, rank);
    forall b | Reachable(BlockGraph(g), {root}, b) ensures b in visited {
      VisitedIffReachable(g, rank, root, b);
    }
    forall e | 0 <= e < 2 * |g| && Reachable(EdgeGraph(g), RootEdges(g, root), e) ensures Pred(g, e) in visited {
      EdgeReachable(g, root, e);
      VisitedIffReachable(g, rank, root, Pred(g, e));
    }
  }

  lemma EdgeGraphSize(g: Graph)
    ensures |EdgeGraph(g)| == 2 * |g| && EdgesOf(g, {}) == {}
  {
  }

  lemma NoSelfEdge(g: Graph, rank: map<int, nat>, b: int)
    requires Ranked(g, rank) && b in rank && 0 <= b < |g|
    ensures EdgeSucc(g, b) != b && EdgeSucc(g, |g| + b) != b
  {
    hide BlockOk;
  }

  lemma EdgeProcessed(g: Graph, edom: seq<set<int>>, e: int)
    requires WellLinked(g) && 0 <= e < 2 * |g| == |edom| && EdgeSucc(g, e) != Pred(g, e)
    ensures |EdgeGraph(g)| == |edom| && EdgeSucc(g, e) < |g|
    ensures var t, d1 := EdgeSucc(g, e), edom[e := edom[e] + {e}];
      var d2 := if t < 0 then d1 else d1[t := d1[t] * d1[e]];
      var d3 := if t < 0 then d2 else d2[|g| + t := d2[|g| + t] * d2[e]];
      d3 == Processed(EdgeGraph(g), edom, e)
  {
  }

  lemma AllEdgesDone(g: Graph, rank: map<int, nat>, root: int, visited: set<int>, levels: seq<seq<int>>,
      edom: seq<set<int>>, done: set<int>)
    requires Ranked(g, rank) && visited <= rank.Keys && DoneUpTo(g, rank, visited, levels, done, -1, 0)
    requires |edom| == 2 * |g|
    requires Progress(EdgeGraph(g), RootEdges(g, root), edom, EdgesOf(g, done))
    ensures forall e, d :: 0 <= e < 2 * |g| && Pred(g, e) in visited ==>
      (d in edom[e] <==> Dominates(EdgeGraph(g), RootEdges(g, root), d, e))
  {
    hide BlockOk, Dominates, Level, EdgeGraph;
    forall e, d | 0 <= e < 2 * |g| && Pred(g, e) in visited
      ensures d in edom[e] <==> Dominates(EdgeGraph(g), RootEdges(g, root), d, e)
    {
      assert Pred(g, e) in done;
      assert ExactAt(EdgeGraph(g), RootEdges(g, root), edom, EdgesOf(g, done), e);
    }
  }

  /** What find_levels leaves behind. */
  ghost predicate Leveled(g: Graph, rank: map<int, nat>, root: int, visited: set<int>, level: seq<nat>,
      levels: seq<seq<int>>) {
    && Walked(g, rank, root, visited) && visited <= rank.Keys && 0 <= root < |g| && |level| == |g|
    && LevelLists(g, rank, visited, levels)
    && root in visited && level[root] == Level(g, rank, root) < |levels|
  }

  lemma LevelsFound(g: Graph, rank: map<int, nat>, root: int, level: seq<nat>, levels: seq<seq<int>>)
    requires Ranked(g, rank) && root in rank
    requires LevelsHold(g, rank, Visit(g, rank, root, {}, false), level, levels)
    ensures Leveled(g, rank, root, Elems(WalkOrder(g, rank, root)), level, levels)
  {
    hide BlockOk, Level, Visit;
    WalksAgree(g, rank, root);
    WholeWalk(g, rank, root, false);
    WholeWalk(g, rank, root, true);
    RankedIndices(g, rank);
    LevelsRead(g, rank, Visit(g, rank, root, {}, false), level, levels, root);
  }

  lemma BlockGraphSize(g: Graph)
    ensures |BlockGraph(g)| == |g|
  {
  }

  /** No block lies above the root. */
  lemma NothingDone(g: Graph, rank: map<int, nat>, root: int, visited: set<int>, level: seq<nat>, levels: seq<seq<int>>)
    requires Leveled(g, rank, root, visited, level, levels)
    ensures DoneUpTo(g, rank, visited, levels, {}, level[root], 0)
  {
    hide Visit, BlockOk, LevelLists;
    var s := set b | b in rank && Level(g, rank, b) <= Level(g, rank, root);
    RankedIndices(g, rank);
    forall b | b in s ensures SuccsIn(g, b, s) {
      if !Leaf(g[b]) { LevelFalls(g, rank, b); }
    }
    VisitMinimal(g, rank, root, {}, true, s);
  }

  lemma LevelDone(g: Graph, rank: map<int, nat>, visited: set<int>, levels: seq<seq<int>>, done: set<int>, l: nat)
    requires Ranked(g, rank) && visited <= rank.Keys && LevelLists(g, rank, visited, levels) && l < |levels|
    requires DoneUpTo(g, rank, visited, levels, done, l, |levels[l]|)
    ensures DoneUpTo(g, rank, visited, levels, done, l - 1, 0)
  {
    hide BlockOk, Level;
    assert levels[l][..|levels[l]|] == levels[l];
  }

  lemma AllDone(g: Graph, rank: map<int, nat>, root: int, visited: set<int>, levels: seq<seq<int>>,
      dom: seq<set<int>>, done: set<int>)
    requires Ranked(g, rank) && visited <= rank.Keys && DoneUpTo(g, rank, visited, levels, done, -1, 0)
    requires Progress(BlockGraph(g), {root}, dom, done)
    ensures forall b, d :: b in visited ==> 0 <= b < |dom| && (d in dom[b] <==> Dominates(BlockGraph(g), {root}, d, b))
  {
    hide BlockOk, Dominates, Level;
    RankedIndices(g, rank);
    forall b, d | b in visited
      ensures 0 <= b < |dom| && (d in dom[b] <==> Dominates(BlockGraph(g), {root}, d, b))
    {
      assert b in done;
      assert ExactAt(BlockGraph(g), {root}, dom, done, b);
    }
  }

  /** The three set operations on one block are one processing step. */
  lemma BlockProcessed(g: Graph, rank: map<int, nat>, dom: seq<set<int>>, b: int)
    requires Ranked(g, rank) && b in rank && 0 <= b < |g| && |dom| == |g|
    ensures |BlockGraph(g)| == |dom|
    ensures !Leaf(g[b]) ==> 0 <= g[b].jt < |g| && 0 <= g[b].jf < |g|
    ensures var d1 := dom[b := dom[b] + {b}];
      var d2 := if Leaf(g[b]) then d1 else d1[g[b].jt := d1[g[b].jt] * d1[b]];
      var d3 := if Leaf(g[b]) then d2 else d2[g[b].jf := d2[g[b].jf] * d2[b]];
      d3 == Processed(BlockGraph(g), dom, b)
  {
    hide BlockOk;
  }

  lemma StartWalk(g: Graph, rank: map<int, nat>, root: int)
    requires Ranked(g, rank) && root in rank
    ensures Finished(g, []) && OnPath(rank, {}, root) && Elems([]) == {}
    ensures Walk(g, rank, root, {}, false) == Visit(g, rank, root, {}, false)
    ensures Elems([]) + {} == {}
  {
    RankedIndices(g, rank);
  }

  lemma WalkFinishes(g: Graph, rank: map<int, nat>, b: int, done: seq<int>, path: set<int>, jfFirst: bool)
    requires Ranked(g, rank) && b in rank && Finished(g, done) && OnPath(rank, path, b)
    ensures var s := done + Walk(g, rank, b, Elems(done) + path, jfFirst); Finished(g, s) && b in s
  {
    hide Visit, Finished;
    RankedIndices(g, rank);
    VisitFinishes(g, rank, b, done, path, jfFirst);
  }

  lemma NotLeaf(g: Graph, rank: map<int, nat>, b: int)
    requires Ranked(g, rank) && b in rank && 0 <= b < |g| && !Leaf(g[b])
    ensures g[b].jt in rank && g[b].jf in rank && g[b].jt >= 0 && g[b].jf >= 0
  {
  }

  lemma LeafWalk(g: Graph, rank: map<int, nat>, b: int, seen: set<int>, first: seq<int>, second: seq<int>)
    requires Ranked(g, rank) && b in rank && 0 <= b < |g| && Leaf(g[b])
    requires first == Walk(g, rank, g[b].jt, seen, false)
    requires exists seen' :: second == Walk(g, rank, g[b].jf, seen', false)
    ensures first == [] && second == []
  {
  }

  lemma LevelsShape(g: Graph, rank: map<int, nat>, done: seq<int>, level: seq<nat>, levels: seq<seq<int>>)
    requires Ranked(g, rank) && LevelsHold(g, rank, done, level, levels)
    ensures |level| == |levels| == |g|
  {
  }

  lemma LevelsRead(g: Graph, rank: map<int, nat>, done: seq<int>, level: seq<nat>, levels: seq<seq<int>>, b: int)
    requires Ranked(g, rank) && LevelsHold(g, rank, done, level, levels) && b in done
    ensures b in rank && 0 <= b < |level| && level[b] == Level(g, rank, b)
  {
  }

  /** The level of a finished block, and that there is a list for it. */
  lemma LevelsLast(g: Graph, rank: map<int, nat>, last: seq<int>, level: seq<nat>, levels: seq<seq<int>>, b: int,
      l: nat)
    requires Ranked(g, rank) && LevelsHold(g, rank, last, level, levels) && Finished(g, last + [b]) && b in rank
    requires 0 <= b < |g|
    requires if Leaf(g[b]) then l == 0
             else g[b].jt in rank && g[b].jf in rank && l == Max(Level(g, rank, g[b].jt), Level(g, rank, g[b].jf)) + 1
    ensures l < |g| && LevelsHold(g, rank, last + [b], level[b := l], levels[l := [b] + levels[l]])
  {
    var s := last + [b];
    assert l == Level(g, rank, b);
    assert s[|last|] == b;
    hide Level, BlockOk;
    LevelBound(g, rank, s, |last|);
    PigeonHole(s, |g|);
    LevelsExtend(g, rank, last, level, levels, b, l);
  }
}
