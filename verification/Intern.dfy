/**
 Merging equal blocks: make_marks, mark_code, eq_slist, eq_blk and intern_blocks of
 deps/libpcap/optimize.c.
 */
module Intern {
  import opened Basics
  import opened Machine
  import opened Validator
  import opened Flow
  import opened Order
  import opened Dominators
  import opened Dominance

  // ----- equal blocks -----

  predicate EqBlk(a: Block, b: Block) {
    a.br == b.br && a.jt == b.jt && a.jf == b.jf && Live(a.stmts) == Live(b.stmts)
  }

  /** Equal blocks give the same result. */
  lemma EqualRuns(g: Graph, rank: map<int, nat>, p: Packet, a: int, b: int, r: Regs)
    requires Ranked(g, rank) && a in rank && b in rank && EqBlk(g[a], g[b])
    ensures Run(g, rank, p, a, r) == Run(g, rank, p, b, r)
  {
    hide Decode, Live, RunStmts, StmtOk, Taken;
    LiveRuns(g[a].stmts, p, r);
    LiveRuns(g[b].stmts, p, r);
  }

  lemma LiveFrom(ss: seq<Stmt>, i: nat)
    requires i < |ss|
    ensures Live(ss[i..]) == if ss[i].code == NOP then Live(ss[i + 1..]) else [ss[i]] + Live(ss[i + 1..])
  {
    assert ss[i..][1..] == ss[i + 1..];
    assert [] + Live(ss[i + 1..]) == Live(ss[i + 1..]);
  }

  /** Two lists of statements are the same but for deleted ones. */
  method EqSlist(x: seq<Stmt>, y: seq<Stmt>) returns (eq: bool)
    ensures eq <==> Live(x) == Live(y)
  {
    hide Live;
    var i, j := 0, 0;
    assert x[0..] == x && y[0..] == y;
    while true
      invariant 0 <= i <= |x| && 0 <= j <= |y|
      invariant Live(x) == Live(y) <==> Live(x[i..]) == Live(y[j..])
      decreases |x| - i
    {
      i := SkipDeleted(x, i);
      j := SkipDeleted(y, j);
      NothingLeft(x);
      NothingLeft(y);
      if j < |y| { LiveFrom(y, j); }
      if i == |x| { return j == |y|; }
      LiveFrom(x, i);
      if j == |y| { return false; }
      if x[i].code != y[j].code || x[i].k != y[j].k {
        assert Live(x[i..])[0] == x[i] && Live(y[j..])[0] == y[j];
        return false;
      }
      SameTail(x[i], Live(x[i + 1..]), Live(y[j + 1..]));
      i, j := i + 1, j + 1;
    }
  }

  method SkipDeleted(ss: seq<Stmt>, start: nat) returns (i: nat)
    requires start <= |ss|
    ensures start <= i <= |ss| && Live(ss[i..]) == Live(ss[start..])
    ensures i < |ss| ==> ss[i].code != NOP
  {
    hide Live;
    i := start;
    while i < |ss| && ss[i].code == NOP
      invariant start <= i <= |ss| && Live(ss[i..]) == Live(ss[start..])
    {
      LiveFrom(ss, i);
      i := i + 1;
    }
  }

  lemma NothingLeft(ss: seq<Stmt>)
    ensures Live(ss[|ss|..]) == []
  {
  }

  lemma SameTail(s: Stmt, x: seq<Stmt>, y: seq<Stmt>)
    ensures [s] + x == [s] + y <==> x == y
  {
    assert ([s] + x)[1..] == x && ([s] + y)[1..] == y;
  }

  // ----- numbering by level -----

  /** A numbering that is the level of each block. */
  ghost predicate ByLevel(g: Graph, rank: map<int, nat>) {
    && Ranked(g, rank)
    && forall b :: b in rank ==> LevelAt(g, rank, b)
  }

  ghost predicate LevelAt(g: Graph, rank: map<int, nat>, b: int)
    requires Ranked(g, rank) && b in rank
  {
    rank[b] == if Leaf(g[b]) then 0 else 1 + Max(rank[g[b].jt], rank[g[b].jf])
  }

  lemma ByLevelExists(g: Graph, rank: map<int, nat>) returns (rank': map<int, nat>)
    requires Ranked(g, rank)
    ensures ByLevel(g, rank') && rank'.Keys == rank.Keys
  {
    hide BlockOk;
    rank' := map b | b in rank :: Level(g, rank, b);
    forall b | b in rank && !Leaf(g[b])
      ensures Level(g, rank, b) == 1 + Max(Level(g, rank, g[b].jt), Level(g, rank, g[b].jf))
    {
      LevelFalls(g, rank, b);
    }
  }

  lemma SameLevel(g: Graph, rank: map<int, nat>, a: int, b: int)
    requires ByLevel(g, rank) && a in rank && b in rank && EqBlk(g[a], g[b])
    ensures rank[a] == rank[b]
  {
    hide BlockOk, Live;
    assert LevelAt(g, rank, a) && LevelAt(g, rank, b);
  }

  // ----- links -----

  ghost predicate LinkAt(g: Graph, live: set<int>, link: seq<int>, i: int)
    requires 0 <= i < |g| == |link|
  {
    link[i] >= 0 ==> i < link[i] < |g| && i in live && link[i] in live && EqBlk(g[i], g[link[i]])
  }

  /** A linked block is live and equal to the live block further up that it is linked to. */
  ghost predicate Links(g: Graph, live: set<int>, link: seq<int>) {
    |link| == |g| && forall i :: 0 <= i < |g| ==> LinkAt(g, live, link, i)
  }

  /** Unlinked live blocks from n on differ from all live blocks further up. */
  ghost predicate Complete(g: Graph, live: set<int>, link: seq<int>, n: int) {
    |link| == |g| && forall i, j :: n <= i < j < |g| && 0 <= i && i in live && j in live && link[i] < 0 ==>
      !EqBlk(g[i], g[j])
  }

  function Follow(link: seq<int>, b: int): int {
    if 0 <= b < |link| && link[b] >= 0 then link[b] else b
  }

  function Relinked(b: Block, link: seq<int>): Block {
    if Leaf(b) then b else b.(jt := Follow(link, b.jt), jf := Follow(link, b.jf))
  }

  ghost predicate AllRelinked(g: Graph, g': Graph, link: seq<int>, n: nat) {
    |g'| == |g| && forall i :: 0 <= i < |g| ==> g'[i] == if i < n then Relinked(g[i], link) else g[i]
  }

  lemma FollowRank(g: Graph, rank: map<int, nat>, live: set<int>, link: seq<int>, b: int)
    requires ByLevel(g, rank) && Links(g, live, link) && live <= rank.Keys && b in rank && 0 <= b < |g|
    ensures Follow(link, b) in rank && rank[Follow(link, b)] == rank[b] && 0 <= b <= Follow(link, b) < |g|
    ensures Follow(link, b) == b || EqBlk(g[b], g[Follow(link, b)])
  {
    hide Ranked, EqBlk;
    assert LinkAt(g, live, link, b);
    if link[b] >= 0 { SameLevel(g, rank, b, link[b]); }
  }

  lemma RelinkedAt(g: Graph, g': Graph, rank: map<int, nat>, live: set<int>, link: seq<int>, b: int)
    requires ByLevel(g, rank) && Links(g, live, link) && live <= rank.Keys && AllRelinked(g, g', link, |g|) && b in rank
    ensures 0 <= b < |g'| == |g| && BlockOk(g'[b]) && (Leaf(g'[b]) <==> Leaf(g[b]))
    ensures rank[b] == if Leaf(g'[b]) then 0 else
      if g'[b].jt in rank && g'[b].jf in rank then 1 + Max(rank[g'[b].jt], rank[g'[b].jf]) else 0
    ensures !Leaf(g'[b]) ==> g'[b].jt in rank && g'[b].jf in rank
  {
    hide Links, StmtOk, IsBranch, IsReturn, Follow;
    assert LevelAt(g, rank, b);
    assert g'[b] == Relinked(g[b], link);
    if !Leaf(g[b]) {
      FollowRank(g, rank, live, link, g[b].jt);
      FollowRank(g, rank, live, link, g[b].jf);
    }
  }

  /** Relinking keeps every level, so the graph stays acyclic. */
  lemma RelinkedByLevel(g: Graph, g': Graph, rank: map<int, nat>, live: set<int>, link: seq<int>)
    requires ByLevel(g, rank) && Links(g, live, link) && live <= rank.Keys && AllRelinked(g, g', link, |g|)
    ensures ByLevel(g', rank)
  {
    hide Links, BlockOk, AllRelinked, ByLevel;
    forall b | b in rank
      ensures 0 <= b < |g'| && BlockOk(g'[b])
      ensures !Leaf(g'[b]) ==> g'[b].jt in rank && g'[b].jf in rank
      ensures rank[b] == if Leaf(g'[b]) then 0 else
        if g'[b].jt in rank && g'[b].jf in rank then 1 + Max(rank[g'[b].jt], rank[g'[b].jf]) else 0
    {
      RelinkedAt(g, g', rank, live, link, b);
    }
    IsByLevel(g', rank);
  }

  lemma IsByLevel(g: Graph, rank: map<int, nat>)
    requires forall b :: b in rank ==>
      && 0 <= b < |g| && BlockOk(g[b]) && (!Leaf(g[b]) ==> g[b].jt in rank && g[b].jf in rank)
      && rank[b] == if Leaf(g[b]) then 0 else if g[b].jt in rank && g[b].jf in rank
        then 1 + Max(rank[g[b].jt], rank[g[b].jf]) else 0
    ensures ByLevel(g, rank)
  {
    hide BlockOk;
  }

  /** ... and every result. */
  lemma {:induction false} RelinkedRuns(g: Graph, g': Graph, rank: map<int, nat>, live: set<int>, link: seq<int>,
      p: Packet, b: int, r: Regs)
    requires ByLevel(g, rank) && ByLevel(g', rank) && Links(g, live, link) && live <= rank.Keys
    requires AllRelinked(g, g', link, |g|) && b in rank
    ensures Run(g', rank, p, b, r) == Run(g, rank, p, b, r)
    decreases rank[b]
  {
    hide Links, StmtOk, IsBranch, IsReturn, Follow, RunStmts, Taken, Decode, LevelAt, EqBlk;
    assert g'[b] == Relinked(g[b], link);
    var e := RunStmts(g[b].stmts, p, r);
    if e.Next? && !Leaf(g[b]) {
      var c := if Taken(g[b].br, e.r) then g[b].jt else g[b].jf;
      FollowRank(g, rank, live, link, c);
      var d := Follow(link, c);
      RelinkedRuns(g, g', rank, live, link, p, d, e.r);
      if d != c { EqualRuns(g, rank, p, c, d, e.r); }
    }
  }

  // ----- termination -----

  function Weight(b: Block): nat {
    if b.jt < 0 || b.jf < 0 then 0 else b.jt + b.jf
  }

  function SuccSum(g: Graph): nat {
    if g == [] then 0 else SuccSum(g[..|g| - 1]) + Weight(g[|g| - 1])
  }

  lemma {:induction false} SuccSumBound(g: Graph, n: nat)
    requires forall b :: 0 <= b < |g| ==> Weight(g[b]) <= 2 * n
    ensures SuccSum(g) <= 2 * n * |g|
  {
    if g != [] {
      SuccSumBound(g[..|g| - 1], n);
      assert 2 * n * |g| == 2 * n * (|g| - 1) + 2 * n;
    }
  }

  lemma {:induction false} SuccSumGrows(g: Graph, g': Graph, i: int)
    requires |g| == |g'| && forall b :: 0 <= b < |g| ==> Weight(g[b]) <= Weight(g'[b])
    ensures SuccSum(g) <= SuccSum(g')
    ensures 0 <= i < |g| && Weight(g[i]) < Weight(g'[i]) ==> SuccSum(g) < SuccSum(g')
  {
    if g != [] { SuccSumGrows(g[..|g| - 1], g'[..|g| - 1], i); }
  }

  /** Relinking never lowers an index, and raises some unless no link is used. */
  lemma RelinkedGrows(g: Graph, g': Graph, live: set<int>, link: seq<int>, i: int)
    requires Links(g, live, link) && WellLinked(g) && AllRelinked(g, g', link, |g|)
    ensures WellLinked(g') && SuccSum(g) <= SuccSum(g') <= 2 * |g| * |g|
    ensures 0 <= i < |g| && g'[i] != g[i] ==> SuccSum(g) < SuccSum(g')
  {
    hide EqBlk, SuccSum;
    forall b | 0 <= b < |g|
      ensures Weight(g[b]) <= Weight(g'[b]) <= 2 * |g|
      ensures g'[b] != g[b] ==> Weight(g[b]) < Weight(g'[b])
      ensures !Leaf(g'[b]) ==> 0 <= g'[b].jt < |g| && 0 <= g'[b].jf < |g|
    {
      if !Leaf(g[b]) {
        assert LinkAt(g, live, link, g[b].jt);
        assert LinkAt(g, live, link, g[b].jf);
      }
      hide Follow;
    }
    SuccSumBound(g', |g|);
    SuccSumGrows(g, g', i);
  }

  // ----- what is left at the end -----

  /** A live block other than the root has a live predecessor. */
  lemma LivePred(g: Graph, rank: map<int, nat>, root: int, i: int) returns (x: int)
    requires Ranked(g, rank) && root in rank && i in Visit(g, rank, root, {}, false) && i != root
    ensures x in Visit(g, rank, root, {}, false) && x in rank && !Leaf(g[x]) && (g[x].jt == i || g[x].jf == i)
    ensures rank[x] > rank[i] && i in rank
  {
    hide BlockOk, Visit, Finished;
    WholeWalk(g, rank, root, false);
    var live := Elems(Visit(g, rank, root, {}, false));
    assert i in live;
    if forall x :: x in live && x in rank && !Leaf(g[x]) ==> g[x].jt != i && g[x].jf != i {
      VisitMinimal(g, rank, root, {}, false, live - {i});
      assert false;
    }
    x :| x in live && x in rank && !Leaf(g[x]) && (g[x].jt == i || g[x].jf == i);
  }

  lemma RootHighest(g: Graph, rank: map<int, nat>, root: int, i: int)
    requires Ranked(g, rank) && root in rank && i in Visit(g, rank, root, {}, false) && i != root
    ensures i in rank && rank[i] < rank[root]
  {
    hide BlockOk, Visit;
    var x := LivePred(g, rank, root, i);
    VisitBelow(g, rank, root, {}, false, x);
  }

  /** No two live blocks are equal. */
  ghost predicate AllDifferent(g: Graph, rank: map<int, nat>, root: int)
    requires Ranked(g, rank) && root in rank
  {
    forall i, j :: i in Visit(g, rank, root, {}, false) && j in Visit(g, rank, root, {}, false) && 0 <= i < j < |g| ==>
      !EqBlk(g[i], g[j])
  }

  lemma NothingToLink(g: Graph, rank: map<int, nat>, root: int, link: seq<int>)
    requires ByLevel(g, rank) && root in rank && AllRelinked(g, g, link, |g|)
    requires var live := Elems(Visit(g, rank, root, {}, false)); Links(g, live, link) && Complete(g, live, link, 0)
    ensures AllDifferent(g, rank, root)
  {
    hide BlockOk, Visit, EqBlk, LevelAt;
    var live := Elems(Visit(g, rank, root, {}, false));
    forall i, j | i in Visit(g, rank, root, {}, false) && j in Visit(g, rank, root, {}, false) && 0 <= i < j < |g|
      ensures !EqBlk(g[i], g[j])
    {
      assert i in live && j in live;
      if link[i] >= 0 {
        assert LinkAt(g, live, link, i);
        if i == root {
          RootHighest(g, rank, root, link[i]);
          SameLevel(g, rank, i, link[i]);
        } else {
          var x := LivePred(g, rank, root, i);
        }
        assert false;
      }
    }
  }

  // ----- the pass -----

  class Interner {
    var g: Graph
    const root: int
    ghost const rank: map<int, nat>
    var mark: seq<int>
    var curMark: int
    var link: seq<int>

    ghost predicate MarksAre(seen: set<int>)
      reads this
    {
      && |mark| == |g|
      && forall b :: 0 <= b < |g| ==> mark[b] <= curMark && (mark[b] == curMark <==> b in seen)
    }

    constructor (g: Graph, root: int, ghost rank: map<int, nat>)
      ensures this.g == g && this.root == root && this.rank == rank
      ensures |mark| == |g| && forall b :: 0 <= b < |g| ==> mark[b] <= curMark
    {
      this.g, this.root, this.rank := g, root, rank;
      mark, curMark, link := seq(|g|, _ => 0), 0, [];
    }

    /** Mark b and the unmarked blocks that it leads to. */
    method MakeMarks(b: int, ghost seen: set<int>)
      requires Ranked(g, rank) && b in rank && MarksAre(seen)
      modifies this`mark
      ensures MarksAre(seen + Elems(Visit(g, rank, b, seen, false)))
      decreases rank[b]
    {
      hide Ranked, Visit, Elems;
      RankedIndices(g, rank);
      if mark[b] == curMark {
        VisitNothing(g, rank, b, seen);
        return;
      }
      VisitParts(g, rank, b, seen);
      mark := mark[b := curMark];
      if Class(g[b].br.code) != RET {
        MakeMarks(g[b].jt, seen + {b});
        ghost var first := Visit(g, rank, g[b].jt, seen + {b}, false);
        MakeMarks(g[b].jf, seen + {b} + Elems(first));
      }
    }

    method MarkCode()
      requires Ranked(g, rank) && root in rank && |mark| == |g| && forall b :: 0 <= b < |g| ==> mark[b] <= curMark
      modifies this`mark, this`curMark
      ensures MarksAre(Elems(Visit(g, rank, root, {}, false)))
    {
      hide Visit, Ranked, Elems;
      curMark := curMark + 1;
      MakeMarks(root, {});
      assert {} + Elems(Visit(g, rank, root, {}, false)) == Elems(Visit(g, rank, root, {}, false));
    }

    method EqualBlocks(i: int, j: int) returns (eq: bool)
      requires 0 <= i < |g| && 0 <= j < |g|
      ensures eq <==> EqBlk(g[i], g[j])
    {
      hide Live;
      if g[i].br.code == g[j].br.code && g[i].br.k == g[j].br.k && g[i].jt == g[j].jt && g[i].jf == g[j].jf {
        eq := EqSlist(g[i].stmts, g[j].stmts);
      } else {
        eq := false;
      }
    }

    /** Link every live block to an equal live block further up, from the top down. */
    method FindLinks(ghost live: set<int>)
      requires MarksAre(live) && |link| == |g| && forall i :: 0 <= i < |g| ==> link[i] == NULL
      modifies this`link
      ensures Links(g, live, link) && Complete(g, live, link, 0)
    {
      hide EqBlk;
      var i := |g| - 2;
      while i >= 0
        invariant -1 <= i || |g| == 0
        invariant |link| == |g| && Links(g, live, link) && Complete(g, live, link, i + 1)
        invariant forall k :: 0 <= k <= i && k < |g| ==> link[k] == NULL
      {
        if mark[i] == curMark {
          var j := i + 1;
          while j < |g|
            invariant i < j <= |g| && |link| == |g| && Links(g, live, link) && Complete(g, live, link, i + 1)
            invariant forall k :: 0 <= k <= i && k < |g| ==> link[k] == NULL
            invariant forall k :: i < k < j && k in live ==> !EqBlk(g[i], g[k])
          {
            if mark[j] == curMark {
              var eq := EqualBlocks(i, j);
              if eq {
                assert LinkAt(g, live, link, j);
                if link[j] >= 0 { EqTransitive(g[i], g[j], g[link[j]]); }
                AddLink(g, live, link, i, if link[j] >= 0 then link[j] else j);
                link := link[i := if link[j] >= 0 then link[j] else j];
                break;
              }
            }
            j := j + 1;
          }
        }
        i := i - 1;
      }
    }

    /** Follow the links from every block. */
    method Relink(ghost live: set<int>) returns (same: bool)
      requires Links(g, live, link) && WellLinked(g)
      modifies this`g
      ensures |g| == |old(g)| && AllRelinked(old(g), g, link, |g|) && (same <==> g == old(g))
    {
      hide EqBlk;
      same := true;
      for i := 0 to |g|
        invariant AllRelinked(old(g), g, link, i) && (same <==> g == old(g))
      {
        var p := g[i];
        assert p == old(g)[i];
        if p.jt >= 0 {
          assert LinkAt(old(g), live, link, p.jt) && LinkAt(old(g), live, link, p.jf);
          if link[p.jt] >= 0 {
            same := false;
            p := p.(jt := link[p.jt]);
          }
          if link[p.jf] >= 0 {
            same := false;
            p := p.(jf := link[p.jf]);
          }
        }
        g := g[i := p];
      }
    }

    /** intern_blocks: link and relink until nothing changes.  Every result stays, on every
        packet; at the end no two live blocks are equal. */
    method InternBlocks()
      requires ByLevel(g, rank) && root in rank && WellLinked(g)
      requires |mark| == |g| && forall b :: 0 <= b < |g| ==> mark[b] <= curMark
      modifies this`g, this`mark, this`curMark, this`link
      ensures ByLevel(old(g), rank) && ByLevel(g, rank) && WellLinked(g) && |g| == |old(g)|
      ensures forall p, b, r :: b in rank ==> Run(g, rank, p, b, r) == Run(old(g), rank, p, b, r)
      ensures AllDifferent(g, rank, root)
    {
      hide ByLevel, WellLinked, Links, Complete, AllRelinked, AllDifferent, Ranked, Visit, Elems, SuccSum, Run;
      ghost var g0, n := g, |g|;
      SumBound(g, rank);
      while true
        invariant ByLevel(g0, rank) && ByLevel(g, rank) && WellLinked(g) && |g| == n && |mark| == n
        invariant forall b :: 0 <= b < n ==> mark[b] <= curMark
        invariant Ranked(g, rank) && Ranked(g0, rank)
        invariant forall p, b, r :: b in rank ==> Run(g, rank, p, b, r) == Run(g0, rank, p, b, r)
        invariant SuccSum(g) <= 2 * n * n
        decreases 2 * n * n - SuccSum(g)
      {
        link := seq(|g|, _ => NULL);
        MarkCode();
        ghost var live, g1 := Elems(Visit(g, rank, root, {}, false)), g;
        LiveRanked(g, rank, root);
        FindLinks(live);
        var same := Relink(live);
        Passed(g0, g1, g, rank, live, link);
        if same {
          NothingToLink(g, rank, root, link);
          break;
        }
        Grown(g1, g, live, link);
      }
    }
  }

  lemma VisitNothing(g: Graph, rank: map<int, nat>, b: int, seen: set<int>)
    requires Ranked(g, rank) && b in rank && b in seen
    ensures seen + Elems(Visit(g, rank, b, seen, false)) == seen
  {
  }

  lemma VisitParts(g: Graph, rank: map<int, nat>, b: int, seen: set<int>)
    requires Ranked(g, rank) && b in rank && b !in seen
    ensures 0 <= b < |g| && (Class(g[b].br.code) != RET <==> !Leaf(g[b]))
    ensures Leaf(g[b]) ==> seen + Elems(Visit(g, rank, b, seen, false)) == seen + {b}
    ensures !Leaf(g[b]) ==>
      && g[b].jt in rank && rank[g[b].jt] < rank[b] && g[b].jf in rank && rank[g[b].jf] < rank[b]
      && var first := Visit(g, rank, g[b].jt, seen + {b}, false);
        var second := Visit(g, rank, g[b].jf, seen + {b} + Elems(first), false);
        seen + Elems(Visit(g, rank, b, seen, false)) == seen + {b} + Elems(first) + Elems(second)
  {
    assert BlockOk(g[b]);
    BlockClass(g[b]);
    hide BlockOk;
    WalkNode(g, rank, b, seen, false, _ => 0);
  }

  lemma BlockClass(b: Block)
    requires BlockOk(b)
    ensures Class(b.br.code) != RET <==> !Leaf(b)
  {
  }

  lemma EqTransitive(a: Block, b: Block, c: Block)
    requires EqBlk(a, b) && EqBlk(b, c)
    ensures EqBlk(a, c)
  {
  }

  lemma AddLink(g: Graph, live: set<int>, link: seq<int>, i: int, j: int)
    requires Links(g, live, link) && Complete(g, live, link, i + 1) && 0 <= i < j < |g| && i in live && j in live
    requires EqBlk(g[i], g[j])
    ensures Links(g, live, link[i := j]) && Complete(g, live, link[i := j], i)
  {
    hide EqBlk;
    var link' := link[i := j];
    forall k | 0 <= k < |g| ensures LinkAt(g, live, link', k) { assert LinkAt(g, live, link, k); }
  }

  lemma LiveRanked(g: Graph, rank: map<int, nat>, root: int)
    requires Ranked(g, rank) && root in rank
    ensures Elems(Visit(g, rank, root, {}, false)) <= rank.Keys
  {
    hide Ranked, Visit;
    WholeWalk(g, rank, root, false);
  }

  lemma SumBound(g: Graph, rank: map<int, nat>)
    requires ByLevel(g, rank) && WellLinked(g)
    ensures SuccSum(g) <= 2 * |g| * |g| && Ranked(g, rank)
  {
    SuccSumBound(g, |g|);
  }

  lemma Passed(g0: Graph, g1: Graph, g: Graph, rank: map<int, nat>, live: set<int>, link: seq<int>)
    requires ByLevel(g0, rank) && ByLevel(g1, rank) && Ranked(g0, rank) && Ranked(g1, rank)
    requires forall p, b, r :: b in rank ==> Run(g1, rank, p, b, r) == Run(g0, rank, p, b, r)
    requires Links(g1, live, link) && live <= rank.Keys && AllRelinked(g1, g, link, |g1|)
    ensures ByLevel(g, rank) && Ranked(g, rank)
    ensures forall p, b, r :: b in rank ==> Run(g, rank, p, b, r) == Run(g0, rank, p, b, r)
  {
    hide Ranked, ByLevel, Links, AllRelinked, Run;
    RelinkedByLevel(g1, g, rank, live, link);
    LevelRanked(g, rank);
    forall p, b, r | b in rank ensures Run(g, rank, p, b, r) == Run(g0, rank, p, b, r) {
      RelinkedRuns(g1, g, rank, live, link, p, b, r);
    }
  }

  lemma LevelRanked(g: Graph, rank: map<int, nat>)
    requires ByLevel(g, rank)
    ensures Ranked(g, rank)
  {
  }

  lemma Grown(g: Graph, g': Graph, live: set<int>, link: seq<int>)
    requires Links(g, live, link) && WellLinked(g) && AllRelinked(g, g', link, |g|) && g' != g
    ensures WellLinked(g') && SuccSum(g) < SuccSum(g') <= 2 * |g| * |g|
  {
    hide SuccSum, Links, WellLinked, Relinked;
    var i :| 0 <= i < |g| && g'[i] != g[i];
    RelinkedGrows(g, g', live, link, i);
  }
}
