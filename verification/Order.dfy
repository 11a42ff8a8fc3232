/**
 Depth-first walks of a flow graph.  The recursive passes over blocks (count_stmts,
 convert_code_r, ...) visit a block once, when they first meet it unmarked, and differ in
 which successor they follow first.
 */
module Order {
  import opened Basics
  import opened Flow

  ghost function Elems(s: seq<int>): set<int> { set x | x in s }

  /** The blocks that a walk from b newly visits, in the order in which it finishes them;
      `seen` are the blocks already marked. */
  ghost function Visit(g: Graph, rank: map<int, nat>, b: int, seen: set<int>, jfFirst: bool): seq<int>
    requires Ranked(g, rank) && b in rank
    decreases rank[b]
  {
    if b in seen then []
    else if Leaf(g[b]) then [b]
    else
      var first := Visit(g, rank, if jfFirst then g[b].jf else g[b].jt, seen + {b}, jfFirst);
      var second := Visit(g, rank, if jfFirst then g[b].jt else g[b].jf, seen + {b} + Elems(first), jfFirst);
      first + second + [b]
  }

  /** Both successors of b are among the given blocks. */
  ghost predicate SuccsIn(g: Graph, b: int, s: set<int>)
    requires 0 <= b < |g|
  {
    !Leaf(g[b]) ==> g[b].jt in s && g[b].jf in s
  }

  /** Blocks in finishing order: none twice, and successors first. */
  ghost predicate Finished(g: Graph, s: seq<int>) {
    Distinct(s) && forall i :: 0 <= i < |s| ==> 0 <= s[i] < |g| && SuccsIn(g, s[i], Elems(s[..i]))
  }

  lemma ElemsAppend(s: seq<int>, t: seq<int>)
    ensures Elems(s + t) == Elems(s) + Elems(t)
  {
    forall x | x in Elems(s) + Elems(t)
      ensures x in s + t
    {
      if x in s {
        var i :| 0 <= i < |s| && s[i] == x;
        assert (s + t)[i] == x;
      } else {
        var i :| 0 <= i < |t| && t[i] == x;
        assert (s + t)[|s| + i] == x;
      }
    }
  }

  lemma FinishedAppend(g: Graph, s: seq<int>, b: int)
    requires Finished(g, s) && 0 <= b < |g| && b !in s && SuccsIn(g, b, Elems(s))
    ensures Finished(g, s + [b])
  {
    var t := s + [b];
    forall i | 0 <= i < |t|
      ensures 0 <= t[i] < |g| && SuccsIn(g, t[i], Elems(t[..i]))
    {
      assert t[..i] == s[..i];
      if i == |s| { assert s[..i] == s; }
    }
  }

  /** Blocks on the path to b, which the walk has marked but not finished; the graph is
      acyclic, so b cannot lead back to them. */
  ghost predicate OnPath(rank: map<int, nat>, path: set<int>, b: int)
    requires b in rank
  {
    forall x :: x in path ==> x in rank && rank[x] > rank[b]
  }

  ghost function Child(b: Block, jf: bool): int { if jf then b.jf else b.jt }

  /** A walk meets only blocks that are not marked yet and not above its start. */
  lemma {:induction false} VisitBelow(g: Graph, rank: map<int, nat>, b: int, seen: set<int>, jfFirst: bool, x: int)
    requires Ranked(g, rank) && b in rank && x in Visit(g, rank, b, seen, jfFirst)
    ensures x !in seen && x in rank && rank[x] <= rank[b]
    decreases rank[b]
  {
    hide BlockOk;
    if !Leaf(g[b]) && x != b {
      var first := Visit(g, rank, Child(g[b], jfFirst), seen + {b}, jfFirst);
      if x in first {
        VisitBelow(g, rank, Child(g[b], jfFirst), seen + {b}, jfFirst, x);
      } else {
        VisitBelow(g, rank, Child(g[b], !jfFirst), seen + {b} + Elems(first), jfFirst, x);
      }
    }
  }

  /** A walk extends a finishing order to a finishing order that contains b. */
  lemma {:induction false} VisitFinishes(g: Graph, rank: map<int, nat>, b: int, done: seq<int>, path: set<int>,
      jfFirst: bool)
    requires Ranked(g, rank) && b in rank
    requires Finished(g, done) && OnPath(rank, path, b)
    ensures var s := done + Visit(g, rank, b, Elems(done) + path, jfFirst);
            Finished(g, s) && b in s
    decreases rank[b]
  {
    hide Finished, BlockOk;
    var seen := Elems(done) + path;
    if b in seen {
      assert done + [] == done;
    } else if Leaf(g[b]) {
      FinishedAppend(g, done, b);
    } else {
      var c, d := Child(g[b], jfFirst), Child(g[b], !jfFirst);
      var first := Visit(g, rank, c, seen + {b}, jfFirst);
      var second := Visit(g, rank, d, seen + {b} + Elems(first), jfFirst);
      assert Elems(done) + (path + {b}) == seen + {b};
      VisitFinishes(g, rank, c, done, path + {b}, jfFirst);
      ElemsAppend(done, first);
      assert Elems(done + first) + (path + {b}) == seen + {b} + Elems(first);
      VisitFinishes(g, rank, d, done + first, path + {b}, jfFirst);
      NodeFinishes(g, rank, b, done, seen, first, second, jfFirst);
    }
  }

  lemma NodeFinishes(g: Graph, rank: map<int, nat>, b: int, done: seq<int>, seen: set<int>, first: seq<int>,
      second: seq<int>, jfFirst: bool)
    requires Ranked(g, rank) && b in rank && !Leaf(g[b]) && b !in seen && Elems(done) <= seen
    requires first == Visit(g, rank, Child(g[b], jfFirst), seen + {b}, jfFirst)
    requires second == Visit(g, rank, Child(g[b], !jfFirst), seen + {b} + Elems(first), jfFirst)
    requires Finished(g, done + first + second) && Child(g[b], jfFirst) in done + first
    requires Child(g[b], !jfFirst) in done + first + second
    ensures Finished(g, done + (first + second + [b])) && b in done + (first + second + [b])
  {
    hide Finished, BlockOk, Visit;
    ElemsAppend(done + first, second);
    forall x | x in first ensures x != b { VisitBelow(g, rank, Child(g[b], jfFirst), seen + {b}, jfFirst, x); }
    forall x | x in second ensures x != b
      { VisitBelow(g, rank, Child(g[b], !jfFirst), seen + {b} + Elems(first), jfFirst, x); }
    FinishedAppend(g, done + first + second, b);
    assert done + first + second + [b] == done + (first + second + [b]);
  }

  ghost predicate ClosedSet(g: Graph, s: set<int>) {
    forall b :: b in s ==> 0 <= b < |g| && SuccsIn(g, b, s)
  }

  /** A walk visits nothing but what b leads to. */
  lemma {:induction false} VisitMinimal(g: Graph, rank: map<int, nat>, b: int, seen: set<int>, jfFirst: bool,
      s: set<int>)
    requires Ranked(g, rank) && b in rank && ClosedSet(g, s) && b in s
    ensures forall x :: x in Visit(g, rank, b, seen, jfFirst) ==> x in s
    decreases rank[b]
  {
    if b !in seen && !Leaf(g[b]) {
      var c, d := if jfFirst then g[b].jf else g[b].jt, if jfFirst then g[b].jt else g[b].jf;
      var first := Visit(g, rank, c, seen + {b}, jfFirst);
      VisitMinimal(g, rank, c, seen + {b}, jfFirst, s);
      VisitMinimal(g, rank, d, seen + {b} + Elems(first), jfFirst, s);
    }
  }

  /** The finishing order of the whole graph, as the layout pass walks it. */
  ghost function WalkOrder(g: Graph, rank: map<int, nat>, root: int): seq<int>
    requires Ranked(g, rank) && root in rank
  {
    Visit(g, rank, root, {}, true)
  }

  lemma FinishedIsClosed(g: Graph, s: seq<int>)
    requires Finished(g, s)
    ensures ClosedSet(g, Elems(s))
  {
    forall b | b in Elems(s)
      ensures 0 <= b < |g| && SuccsIn(g, b, Elems(s))
    {
      var i :| 0 <= i < |s| && s[i] == b;
      assert Elems(s[..i]) <= Elems(s);
    }
  }

  lemma WholeWalk(g: Graph, rank: map<int, nat>, root: int, jfFirst: bool)
    requires Ranked(g, rank) && root in rank
    ensures var s := Visit(g, rank, root, {}, jfFirst);
            Finished(g, s) && |s| > 0 && s[|s| - 1] == root && ClosedSet(g, Elems(s)) && Elems(s) <= rank.Keys
  {
    hide Finished, BlockOk;
    var s := Visit(g, rank, root, {}, jfFirst);
    assert s[|s| - 1] == root;
    assert Finished(g, []) by { EmptyFinished(g); }
    assert Elems([]) + {} == {};
    VisitFinishes(g, rank, root, [], {}, jfFirst);
    assert [] + s == s;
    FinishedIsClosed(g, s);
    forall x | x in s ensures x in rank { VisitBelow(g, rank, root, {}, jfFirst, x); }
  }

  lemma EmptyFinished(g: Graph)
    ensures Finished(g, [])
  {
  }

  /** Both walks visit the same blocks. */
  lemma WalksAgree(g: Graph, rank: map<int, nat>, root: int)
    requires Ranked(g, rank) && root in rank
    ensures Elems(Visit(g, rank, root, {}, true)) == Elems(Visit(g, rank, root, {}, false))
  {
    var s, t := Visit(g, rank, root, {}, true), Visit(g, rank, root, {}, false);
    WholeWalk(g, rank, root, true);
    WholeWalk(g, rank, root, false);
    VisitMinimal(g, rank, root, {}, true, Elems(t));
    VisitMinimal(g, rank, root, {}, false, Elems(s));
  }

  // ----- sums over blocks -----

  ghost function Sum(s: seq<int>, size: int -> nat): nat {
    if s == [] then 0 else Sum(s[..|s| - 1], size) + size(s[|s| - 1])
  }

  lemma {:induction false} SumAppend(s: seq<int>, t: seq<int>, size: int -> nat)
    ensures Sum(s + t, size) == Sum(s, size) + Sum(t, size)
  {
    if t == [] {
      assert s + t == s;
    } else {
      var t' := t[..|t| - 1];
      assert (s + t)[..|s + t| - 1] == s + t';
      SumAppend(s, t', size);
    }
  }

  lemma Removed(t: seq<int>, k: nat)
    requires Distinct(t) && k < |t|
    ensures Distinct(t[..k] + t[k + 1..]) && Elems(t[..k] + t[k + 1..]) == Elems(t) - {t[k]}
  {
    var a, b := t[..k], t[k + 1..];
    ElemsAppend(a, b);
    ElemsAppend(a, [t[k]]);
    ElemsAppend(a + [t[k]], b);
    assert t == a + [t[k]] + b;
    assert t[k] !in a && t[k] !in b;
  }

  lemma SumInsert(a: seq<int>, x: int, b: seq<int>, size: int -> nat)
    ensures Sum(a + [x] + b, size) == Sum(a + b, size) + size(x)
  {
    SumAppend(a, b, size);
    SumAppend(a, [x], size);
    SumAppend(a + [x], b, size);
    assert [x][..0] == [];
  }

  lemma SumRemoved(t: seq<int>, k: nat, size: int -> nat)
    requires k < |t|
    ensures Sum(t, size) == Sum(t[..k] + t[k + 1..], size) + size(t[k])
  {
    SumInsert(t[..k], t[k], t[k + 1..], size);
    hide Sum;
    assert t == t[..k] + [t[k]] + t[k + 1..];
  }

  lemma SomeElem(t: seq<int>)
    ensures |t| > 0 ==> Elems(t) != {}
  {
    if |t| > 0 { assert t[0] in Elems(t); }
  }

  /** The sum over a set of blocks does not depend on their order. */
  lemma {:induction false} SumPermuted(s: seq<int>, t: seq<int>, size: int -> nat)
    requires Distinct(s) && Distinct(t) && Elems(s) == Elems(t)
    ensures Sum(s, size) == Sum(t, size) && |s| == |t|
    decreases |s|
  {
    if s == [] {
      SomeElem(t);
    } else {
      var n := |s| - 1;
      assert s[n] in Elems(t);
      var k :| 0 <= k < |t| && t[k] == s[n];
      Removed(s, n);
      Removed(t, k);
      assert s[..n] + s[n + 1..] == s[..n];
      SumPermuted(s[..n], t[..k] + t[k + 1..], size);
      SumRemoved(t, k, size);
    }
  }

  /** A sum over some blocks is at most the sum over more blocks. */
  lemma {:induction false} SumSubset(s: seq<int>, t: seq<int>, size: int -> nat)
    requires Distinct(s) && Distinct(t) && Elems(s) <= Elems(t)
    ensures Sum(s, size) <= Sum(t, size)
    decreases |s|
  {
    if s != [] {
      var n := |s| - 1;
      assert s[n] in Elems(s);
      var k :| 0 <= k < |t| && t[k] == s[n];
      Removed(s, n);
      Removed(t, k);
      assert s[..n] + s[n + 1..] == s[..n];
      SumSubset(s[..n], t[..k] + t[k + 1..], size);
      SumRemoved(t, k, size);
    }
  }

  lemma SumElems(s: seq<int>, b: int, size: int -> nat)
    ensures Sum(s + [b], size) == Sum(s, size) + size(b) && Elems(s + [b]) == Elems(s) + {b}
  {
    assert (s + [b])[..|s|] == s;
    ElemsAppend(s, [b]);
  }
  /** A walk from a block or from NULL. */
  ghost function Walk(g: Graph, rank: map<int, nat>, b: int, seen: set<int>, jfFirst: bool): seq<int>
    requires Ranked(g, rank) && (b < 0 || b in rank)
  {
    if b < 0 then [] else Visit(g, rank, b, seen, jfFirst)
  }

  ghost predicate Below(rank: map<int, nat>, b: int, t: int)
    requires b in rank
  {
    t < 0 || (t in rank && rank[t] < rank[b])
  }

  /** A walk from b, in terms of the walks from its successors. */
  lemma WalkNode(g: Graph, rank: map<int, nat>, b: int, seen: set<int>, jfFirst: bool, size: int -> nat)
    requires Ranked(g, rank) && b in rank && b !in seen
    ensures 0 <= b < |g| && Below(rank, b, g[b].jt) && Below(rank, b, g[b].jf)
    ensures var first := Walk(g, rank, Child(g[b], jfFirst), seen + {b}, jfFirst);
            var second := Walk(g, rank, Child(g[b], !jfFirst), seen + {b} + Elems(first), jfFirst);
            && Walk(g, rank, b, seen, jfFirst) == first + second + [b]
            && Sum(Walk(g, rank, b, seen, jfFirst), size) == Sum(first, size) + Sum(second, size) + size(b)
            && Elems(Walk(g, rank, b, seen, jfFirst)) == Elems(first) + Elems(second) + {b}
  {
    hide StmtOk, IsBranch, IsReturn, Sum, Elems;
    var first := Walk(g, rank, Child(g[b], jfFirst), seen + {b}, jfFirst);
    var second := Walk(g, rank, Child(g[b], !jfFirst), seen + {b} + Elems(first), jfFirst);
    SumAppend(first, second, size);
    ElemsAppend(first, second);
    SumElems(first + second, b, size);
    assert Walk(g, rank, b, seen, jfFirst) == first + second + [b];
  }

  lemma WalkNothing(g: Graph, rank: map<int, nat>, b: int, seen: set<int>, jfFirst: bool, size: int -> nat)
    requires Ranked(g, rank) && (b < 0 || (b in rank && b in seen))
    ensures var s := Walk(g, rank, b, seen, jfFirst); s == [] && Sum(s, size) == 0 && Elems(s) == {}
  {
  }

  lemma RankedIndices(g: Graph, rank: map<int, nat>)
    requires Ranked(g, rank)
    ensures forall b :: b in rank ==> 0 <= b < |g|
  {
  }

  /** How a walk from b splits, with what is marked before each part. */
  lemma WalkParts(g: Graph, rank: map<int, nat>, b: int, done: seq<int>, path: set<int>, jfFirst: bool)
    returns (first: seq<int>, second: seq<int>)
    requires Ranked(g, rank) && b in rank && b !in Elems(done) + path && OnPath(rank, path, b)
    ensures 0 <= b < |g| && Below(rank, b, g[b].jt) && Below(rank, b, g[b].jf)
    ensures g[b].jf >= 0 ==> OnPath(rank, path + {b}, g[b].jf)
    ensures g[b].jt >= 0 ==> OnPath(rank, path + {b}, g[b].jt)
    ensures first == Walk(g, rank, Child(g[b], jfFirst), Elems(done) + (path + {b}), jfFirst)
    ensures second == Walk(g, rank, Child(g[b], !jfFirst), Elems(done + first) + (path + {b}), jfFirst)
    ensures Walk(g, rank, b, Elems(done) + path, jfFirst) == first + second + [b]
  {
    hide Visit, Sum, Elems, BlockOk;
    var seen := Elems(done) + path;
    WalkNode(g, rank, b, seen, jfFirst, _ => 0);
    hide Walk;
    assert seen + {b} == Elems(done) + (path + {b});
    first := Walk(g, rank, Child(g[b], jfFirst), seen + {b}, jfFirst);
    ElemsAppend(done, first);
    assert seen + {b} + Elems(first) == Elems(done + first) + (path + {b});
    second := Walk(g, rank, Child(g[b], !jfFirst), Elems(done + first) + (path + {b}), jfFirst);
  }
}
