/**
 Dominators in a directed graph with entries: d dominates b if every path from an entry to
 b passes d.  The optimizer computes them for blocks and for edges by intersecting sets
 along the edges, in an order in which predecessors come first; `Progress` is the invariant
 of that computation.
 */
module Dominance {

  /** Successors of each node. */
  type Adjacency = seq<set<int>>

  ghost predicate Path(adj: Adjacency, entry: set<int>, p: seq<int>) {
    && |p| > 0 && p[0] in entry
    && (forall k :: 0 <= k < |p| ==> 0 <= p[k] < |adj|)
    && (forall k :: 0 <= k < |p| - 1 ==> EdgeAt(adj, p, k))
  }

  ghost predicate EdgeAt(adj: Adjacency, p: seq<int>, k: nat)
    requires k < |p| - 1 && 0 <= p[k] < |adj|
  {
    p[k + 1] in adj[p[k]]
  }

  ghost predicate PathTo(adj: Adjacency, entry: set<int>, p: seq<int>, b: int) {
    Path(adj, entry, p) && p[|p| - 1] == b
  }

  ghost predicate Reachable(adj: Adjacency, entry: set<int>, b: int) {
    exists p :: PathTo(adj, entry, p, b)
  }

  ghost predicate Dominates(adj: Adjacency, entry: set<int>, d: int, b: int) {
    forall p :: PathTo(adj, entry, p, b) ==> d in p
  }

  lemma ExtendPath(adj: Adjacency, entry: set<int>, p: seq<int>, a: int, b: int)
    requires PathTo(adj, entry, p, a) && 0 <= b < |adj| && b in adj[a]
    ensures PathTo(adj, entry, p + [b], b)
  {
    var q := p + [b];
    forall k | 0 <= k < |q| - 1 ensures EdgeAt(adj, q, k) {
      if k < |p| - 1 { assert EdgeAt(adj, p, k); }
    }
  }

  lemma ShortenPath(adj: Adjacency, entry: set<int>, p: seq<int>, b: int)
    requires PathTo(adj, entry, p, b) && |p| > 1
    ensures PathTo(adj, entry, p[..|p| - 1], p[|p| - 2]) && b in adj[p[|p| - 2]]
  {
    var q := p[..|p| - 1];
    assert EdgeAt(adj, p, |p| - 2);
    forall k | 0 <= k < |q| - 1 ensures EdgeAt(adj, q, k) { assert EdgeAt(adj, p, k); }
  }

  /** A node is dominated by itself and by what dominates all its predecessors. */
  lemma DominatesStep(adj: Adjacency, entry: set<int>, d: int, b: int)
    requires Reachable(adj, entry, b)
    ensures Dominates(adj, entry, d, b) <==>
      d == b || (b !in entry && forall a ::
        0 <= a < |adj| && b in adj[a] && Reachable(adj, entry, a) ==> Dominates(adj, entry, d, a))
  {
    var q :| PathTo(adj, entry, q, b);
    if Dominates(adj, entry, d, b) && d != b {
      if b in entry {
        assert PathTo(adj, entry, [b], b);
      }
      forall a | 0 <= a < |adj| && b in adj[a] && Reachable(adj, entry, a)
        ensures Dominates(adj, entry, d, a)
      {
        forall p | PathTo(adj, entry, p, a) ensures d in p {
          ExtendPath(adj, entry, p, a, b);
        }
      }
    }
    if b !in entry && forall a :: 0 <= a < |adj| && b in adj[a] && Reachable(adj, entry, a) ==>
      Dominates(adj, entry, d, a) {
      forall p | PathTo(adj, entry, p, b) ensures d in p {
        ShortenPath(adj, entry, p, b);
        assert Reachable(adj, entry, p[|p| - 2]);
        assert d in p[..|p| - 1];
      }
    }
  }

  // ----- the computation -----

  /** d has not been ruled out for a node b that is still to be processed. */
  ghost predicate Possible(adj: Adjacency, entry: set<int>, done: set<int>, d: int, b: int) {
    && b !in entry && 0 <= d < |adj|
    && forall a :: a in done && 0 <= a < |adj| && b in adj[a] ==> Dominates(adj, entry, d, a)
  }

  ghost predicate ExactAt(adj: Adjacency, entry: set<int>, dom: seq<set<int>>, done: set<int>, b: int)
    requires 0 <= b < |dom|
  {
    forall d :: d in dom[b] <==> if b in done then Dominates(adj, entry, d, b) else Possible(adj, entry, done, d, b)
  }

  /** Processed nodes have exactly their dominators; the others what their processed
      predecessors leave possible. */
  ghost predicate Progress(adj: Adjacency, entry: set<int>, dom: seq<set<int>>, done: set<int>) {
    && |dom| == |adj|
    && (forall a :: a in done ==> 0 <= a < |adj| && Reachable(adj, entry, a))
    && forall b :: 0 <= b < |dom| ==> ExactAt(adj, entry, dom, done, b)
  }

  function Everything(n: nat): (s: set<int>)
    ensures forall d :: d in s <==> 0 <= d < n
  {
    if n == 0 then {} else Everything(n - 1) + {n - 1}
  }

  /** All sets full, those of the entries empty. */
  ghost function Initial(n: nat, entry: set<int>): seq<set<int>> {
    seq(n, b => if b in entry then {} else Everything(n))
  }

  lemma InitialProgress(adj: Adjacency, entry: set<int>)
    ensures Progress(adj, entry, Initial(|adj|, entry), {})
  {
  }

  /** What processing node b does: it enters its own set, and every successor's set is
      intersected with the result. */
  function Processed(adj: Adjacency, dom: seq<set<int>>, b: int): seq<set<int>>
    requires |dom| == |adj| && 0 <= b < |adj|
  {
    seq(|dom|, t requires 0 <= t < |dom| =>
      if t == b then dom[b] + {b} else if t in adj[b] then dom[t] * (dom[b] + {b}) else dom[t])
  }

  /** b can be processed: it is reachable and its predecessors have been processed. */
  ghost predicate Ready(adj: Adjacency, entry: set<int>, done: set<int>, b: int) {
    && 0 <= b < |adj| && b !in done && Reachable(adj, entry, b) && b !in adj[b]
    && forall a :: 0 <= a < |adj| && b in adj[a] && Reachable(adj, entry, a) ==> a in done
  }

  lemma OwnSet(adj: Adjacency, entry: set<int>, dom: seq<set<int>>, done: set<int>, b: int)
    requires Progress(adj, entry, dom, done) && Ready(adj, entry, done, b)
    ensures forall d :: d in dom[b] + {b} <==> Dominates(adj, entry, d, b)
  {
    var q :| PathTo(adj, entry, q, b);
    assert ExactAt(adj, entry, dom, done, b);
    forall d
      ensures d in dom[b] + {b} <==> Dominates(adj, entry, d, b)
    {
      DominatesStep(adj, entry, d, b);
      if Dominates(adj, entry, d, b) {
        assert d in q;
      }
    }
  }

  lemma Step(adj: Adjacency, entry: set<int>, dom: seq<set<int>>, done: set<int>, b: int)
    requires Progress(adj, entry, dom, done) && Ready(adj, entry, done, b)
    requires forall t :: t in adj[b] ==> t !in done
    ensures Progress(adj, entry, Processed(adj, dom, b), done + {b})
  {
    var dom', done' := Processed(adj, dom, b), done + {b};
    OwnSet(adj, entry, dom, done, b);
    hide Dominates, Reachable;
    forall t | 0 <= t < |dom'|
      ensures ExactAt(adj, entry, dom', done', t)
    {
      assert ExactAt(adj, entry, dom, done, t);
      if t != b && t !in done {
        forall d ensures Possible(adj, entry, done', d, t)
                    <==> Possible(adj, entry, done, d, t) && (t in adj[b] ==> Dominates(adj, entry, d, b)) {
        }
      }
    }
  }
}
