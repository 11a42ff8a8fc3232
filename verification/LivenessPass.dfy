/**
 The passes that compute liveness and delete dead stores (deps/libpcap/optimize.c:562-646,
 1233-1275), proved against the backward definition of module Liveness.
 */
module LivenessPass {
  import opened Machine
  import opened Flow
  import opened Validator
  import opened Order
  import opened Dominators
  import opened Liveness

  /** How the sets computed by one forward scan describe a block: for every set of atoms live at
      its end, what is live at its start. */
  ghost predicate Summarizes(ss: seq<Stmt>, br: Stmt, use: set<int>, kill: set<int>) {
    forall out: set<int> {:trigger SummaryAt(ss, br, use, kill, out)} :: SummaryAt(ss, br, use, kill, out)
  }

  ghost predicate SummaryAt(ss: seq<Stmt>, br: Stmt, use: set<int>, kill: set<int>, out: set<int>) {
    LiveBefore(ss, BranchUses(br) + out) == use + (out - kill)
  }

  ghost predicate ScanAt(ss: seq<Stmt>, i: nat, use: set<int>, def: set<int>, after: set<int>)
    requires i <= |ss|
  {
    LiveBefore(ss, after) == use + (LiveBefore(ss[i..], after) - def)
  }

  ghost predicate Scanned(ss: seq<Stmt>, i: nat, use: set<int>, def: set<int>)
    requires i <= |ss|
  {
    forall after: set<int> {:trigger ScanAt(ss, i, use, def, after)} :: ScanAt(ss, i, use, def, after)
  }

  lemma ScanStep(ss: seq<Stmt>, i: nat, use: set<int>, def: set<int>, use': set<int>, def': set<int>)
    requires i < |ss| && Scanned(ss, i, use, def)
    requires use' == use + (Uses(ss[i]) - def) && def' == def + Defs(ss[i])
    ensures Scanned(ss, i + 1, use', def')
  {
    hide Uses, Defs;
    var n := i + 1;
    forall after: set<int> ensures ScanAt(ss, n, use', def', after) {
      assert ScanAt(ss, i, use, def, after);
      assert ss[i..][1..] == ss[n..];
    }
  }

  /** The atoms of a use that no earlier statement defines. */
  method AddUses(use: set<int>, def: set<int>, s: Stmt) returns (use': set<int>)
    ensures use' == use + (Uses(s) - def)
  {
    use' := use;
    var atom := AtomUse(s);
    if atom >= 0 {
      if atom == AX_ATOM {
        if X_ATOM !in def { use' := use' + {X_ATOM}; }
        if A_ATOM !in def { use' := use' + {A_ATOM}; }
      } else {
        if atom !in def { use' := use' + {atom}; }
      }
    }
  }

  method ComputeLocalUd(ss: seq<Stmt>, br: Stmt) returns (def: set<int>, kill: set<int>, use: set<int>)
    ensures Summarizes(ss, br, use, kill)
  {
    hide Uses, Defs, LiveBefore, BranchUses, Scanned, AtomUse, AtomDef;
    def, kill, use := {}, {}, {};
    ScanStart(ss);
    for i := 0 to |ss|
      invariant kill <= def && def - kill <= use && Scanned(ss, i, use, def)
    {
      ghost var use0, def0 := use, def;
      use := AddUses(use, def, ss[i]);
      var atom := AtomDef(ss[i]);
      if atom >= 0 {
        if atom !in use { kill := kill + {atom}; }
        def := def + {atom};
      }
      DefsOf(ss[i]);
      ScanStep(ss, i, use0, def0, use, def);
    }
    ghost var use0 := use;
    if br.code >= 0 && Class(br.code) == JMP {
      use := AddUses(use, def, br);
    }
    BranchUsesOf(br);
    ScanEnd(ss, br, use0, use, def, kill);
  }

  lemma DefsOf(s: Stmt)
    ensures Defs(s) == if AtomDef(s) >= 0 then {AtomDef(s)} else {}
  {
  }

  lemma BranchUsesOf(br: Stmt)
    ensures BranchUses(br) == if br.code >= 0 && Class(br.code) == JMP then Uses(br) else {}
  {
  }

  lemma ScanStart(ss: seq<Stmt>)
    ensures Scanned(ss, 0, {}, {})
  {
    assert ss[0..] == ss;
  }

  lemma ScanEnd(ss: seq<Stmt>, br: Stmt, use0: set<int>, use: set<int>, def: set<int>, kill: set<int>)
    requires kill <= def && def - kill <= use0 && use == use0 + (BranchUses(br) - def)
    requires Scanned(ss, |ss|, use0, def)
    ensures Summarizes(ss, br, use, kill)
  {
    hide BranchUses;
    forall out: set<int> ensures SummaryAt(ss, br, use, kill, out) {
      assert ScanAt(ss, |ss|, use0, def, BranchUses(br) + out);
      assert ss[|ss|..] == [];
      assert LiveBefore([], BranchUses(br) + out) == BranchUses(br) + out;
    }
  }

  // ----- the whole graph -----

  /** The sets of a block on its own. */
  ghost predicate Local(g: Graph, kill: seq<set<int>>, inUse: seq<set<int>>, outUse: seq<set<int>>, b: int)
    requires |kill| == |inUse| == |outUse| == |g|
  {
    0 <= b < |g| && Summarizes(g[b].stmts, g[b].br, inUse[b], kill[b]) && outUse[b] == {}
  }

  /** The final sets of a block. */
  ghost predicate Global(g: Graph, rank: map<int, nat>, inUse: seq<set<int>>, outUse: seq<set<int>>, b: int)
    requires Ranked(g, rank) && |inUse| == |outUse| == |g|
  {
    b in rank && 0 <= b < |g| && inUse[b] == LiveIn(g, rank, b) && outUse[b] == LiveOut(g, rank, b)
  }

  /** A block whose successors are final becomes final. */
  lemma Combine(g: Graph, rank: map<int, nat>, kill: seq<set<int>>, inUse: seq<set<int>>, outUse: seq<set<int>>,
      b: int, out: set<int>)
    requires Ranked(g, rank) && b in rank && 0 <= b < |g| && |kill| == |inUse| == |outUse| == |g|
    requires Local(g, kill, inUse, outUse, b) && out == LiveOut(g, rank, b)
    ensures inUse[b] + (out - kill[b]) == LiveIn(g, rank, b)
  {
    hide LiveBefore, BranchUses, LiveOut, Ranked;
    assert SummaryAt(g[b].stmts, g[b].br, inUse[b], kill[b], out);
    LiveInOf(g, rank, b);
  }

  lemma LiveInOf(g: Graph, rank: map<int, nat>, b: int)
    requires Ranked(g, rank) && b in rank && 0 <= b < |g|
    ensures LiveIn(g, rank, b) == LiveBefore(g[b].stmts, BranchUses(g[b].br) + LiveOut(g, rank, b))
    ensures LiveOut(g, rank, b) == if Leaf(g[b]) then {} else LiveIn(g, rank, g[b].jt) + LiveIn(g, rank, g[b].jf)
  {
  }

  lemma DoneAll(g: Graph, rank: map<int, nat>, visited: set<int>, levels: seq<seq<int>>, done: set<int>)
    requires Ranked(g, rank) && visited <= rank.Keys && DoneUpTo(g, rank, visited, levels, done, -1, 0)
    ensures done == visited
  {
    hide BlockOk;
    assert forall b :: b in visited ==> Level(g, rank, b) > -1;
    assert forall b :: b in visited <==> b in done;
  }

  lemma LeveledShape(g: Graph, rank: map<int, nat>, root: int, visited: set<int>, level: seq<nat>,
      levels: seq<seq<int>>)
    requires Leveled(g, rank, root, visited, level, levels)
    ensures Ranked(g, rank) && visited <= rank.Keys && level[root] < |levels|
  {
  }

  /** The blocks below level l, and the first j of level l itself. */
  ghost predicate LowUpTo(g: Graph, rank: map<int, nat>, visited: set<int>, levels: seq<seq<int>>, done: set<int>,
      l: nat, j: nat)
    requires Ranked(g, rank) && visited <= rank.Keys
  {
    forall b :: b in done <==>
      b in visited && (Level(g, rank, b) < l || (l < |levels| && j <= |levels[l]| && b in levels[l][..j]))
  }

  /** Leaves are final as they are. */
  lemma BottomDone(g: Graph, rank: map<int, nat>, root: int, visited: set<int>, level: seq<nat>, levels: seq<seq<int>>,
      kill: seq<set<int>>, inUse: seq<set<int>>, outUse: seq<set<int>>) returns (done: set<int>)
    requires Leveled(g, rank, root, visited, level, levels) && |kill| == |inUse| == |outUse| == |g|
    requires forall b :: b in visited ==> Local(g, kill, inUse, outUse, b)
    ensures LowUpTo(g, rank, visited, levels, done, 1, 0)
    ensures forall b :: b in done ==> Global(g, rank, inUse, outUse, b)
  {
    hide BlockOk, LevelLists, WalkOrder, Summarizes, LiveIn, LiveOut;
    done := set b | b in visited && Level(g, rank, b) < 1;
    forall b | b in done ensures Global(g, rank, inUse, outUse, b) {
      assert Local(g, kill, inUse, outUse, b);
      LiveInOf(g, rank, b);
      Combine(g, rank, kill, inUse, outUse, b, {});
    }
  }

  /** The next block up: its successors are final and it is not. */
  lemma NextLow(g: Graph, rank: map<int, nat>, root: int, visited: set<int>, level: seq<nat>, levels: seq<seq<int>>,
      done: set<int>, l: nat, j: nat)
    requires Leveled(g, rank, root, visited, level, levels) && Ranked(g, rank) && visited <= rank.Keys
    requires 1 <= l < |levels| && j < |levels[l]| && LowUpTo(g, rank, visited, levels, done, l, j)
    ensures var b := levels[l][j];
      && b in visited && b !in done && b in rank && 0 <= b < |g| && !Leaf(g[b]) && g[b].jt in done && g[b].jf in done
      && LowUpTo(g, rank, visited, levels, done + {b}, l, j + 1)
  {
    hide BlockOk, WalkOrder;
    var b := levels[l][j];
    assert b !in levels[l][..j];
    WalkOrderClosedUnder(g, rank, root, b);
    LevelFalls(g, rank, b);
    assert levels[l][..j + 1] == levels[l][..j] + [b];
  }

  lemma WalkOrderClosedUnder(g: Graph, rank: map<int, nat>, root: int, b: int)
    requires Ranked(g, rank) && root in rank && b in Elems(WalkOrder(g, rank, root))
    ensures 0 <= b < |g| && SuccsIn(g, b, Elems(WalkOrder(g, rank, root)))
  {
    hide BlockOk, Visit;
    WholeWalk(g, rank, root, true);
  }

  lemma LowLevelDone(g: Graph, rank: map<int, nat>, root: int, visited: set<int>, level: seq<nat>,
      levels: seq<seq<int>>, done: set<int>, l: nat)
    requires Leveled(g, rank, root, visited, level, levels) && Ranked(g, rank) && visited <= rank.Keys
    requires l < |levels| && LowUpTo(g, rank, visited, levels, done, l, |levels[l]|)
    ensures LowUpTo(g, rank, visited, levels, done, l + 1, 0)
  {
    hide BlockOk, Level, WalkOrder;
    assert levels[l][..|levels[l]|] == levels[l];
  }

  lemma LowAll(g: Graph, rank: map<int, nat>, root: int, visited: set<int>, level: seq<nat>, levels: seq<seq<int>>,
      done: set<int>)
    requires Leveled(g, rank, root, visited, level, levels) && Ranked(g, rank) && visited <= rank.Keys
    requires LowUpTo(g, rank, visited, levels, done, level[root] + 1, 0)
    ensures done == visited
  {
    NothingDone(g, rank, root, visited, level, levels);
    hide BlockOk, LevelLists, WalkOrder;
    assert forall b :: b in visited ==> Level(g, rank, b) <= level[root];
    assert forall b :: b in visited <==> b in done;
  }

  class UseDef {
    const g: Graph
    var kill: seq<set<int>>
    var inUse: seq<set<int>>
    var outUse: seq<set<int>>

    constructor (g: Graph)
      ensures this.g == g && |kill| == |inUse| == |outUse| == |g|
    {
      this.g := g;
      kill, inUse, outUse := seq(|g|, _ => {}), seq(|g|, _ => {}), seq(|g|, _ => {});
    }

    ghost predicate Locals(blocks: set<int>)
      reads this
    {
      |kill| == |inUse| == |outUse| == |g| && forall b :: b in blocks ==> Local(g, kill, inUse, outUse, b)
    }

    ghost predicate Globals(rank: map<int, nat>, blocks: set<int>)
      reads this
      requires Ranked(g, rank)
    {
      |kill| == |inUse| == |outUse| == |g| && forall b :: b in blocks ==> Global(g, rank, inUse, outUse, b)
    }

    /** Use, definition and kill sets of every block on its own. */
    method LocalSets(levels: seq<seq<int>>, maxlevel: nat, ghost rank: map<int, nat>, ghost root: int,
        ghost visited: set<int>, ghost level: seq<nat>)
      requires Leveled(g, rank, root, visited, level, levels) && maxlevel == level[root]
      requires |kill| == |inUse| == |outUse| == |g|
      modifies this
      ensures Locals(visited)
    {
      hide Ranked, Level, LevelLists, DoneUpTo, WalkOrder, Elems, Summarizes;
      ghost var done: set<int> := {};
      NothingDone(g, rank, root, visited, level, levels);
      var i: int := maxlevel;
      while i >= 0
        invariant -1 <= i < |levels| && Locals(done) && DoneUpTo(g, rank, visited, levels, done, i, 0)
      {
        for j := 0 to |levels[i]|
          invariant Locals(done) && DoneUpTo(g, rank, visited, levels, done, i, j)
        {
          var b := levels[i][j];
          BlockReady(g, rank, root, visited, levels, done, i, j);
          var def, k, use := ComputeLocalUd(g[b].stmts, g[b].br);
          kill, inUse, outUse := kill[b := k], inUse[b := use], outUse[b := {}];
          done := done + {b};
        }
        LevelDone(g, rank, visited, levels, done, i);
        i := i - 1;
      }
      DoneAll(g, rank, visited, levels, done);
    }

    /** One block whose successors are final. */
    method UpdateBlock(b: int, ghost rank: map<int, nat>, ghost visited: set<int>, ghost done: set<int>)
      requires Ranked(g, rank) && Globals(rank, done) && Locals(visited - done)
      requires b in visited && b !in done && b in rank && 0 <= b < |g| && !Leaf(g[b]) && g[b].jt in done
      requires g[b].jf in done
      modifies this`inUse, this`outUse
      ensures Globals(rank, done + {b}) && Locals(visited - (done + {b}))
    {
      hide Ranked, LiveIn, LiveOut, Summarizes;
      LiveInOf(g, rank, b);
      assert Local(g, kill, inUse, outUse, b);
      assert Global(g, rank, inUse, outUse, g[b].jt) && Global(g, rank, inUse, outUse, g[b].jf);
      Combine(g, rank, kill, inUse, outUse, b, outUse[b] + (inUse[g[b].jt] + inUse[g[b].jf]));
      outUse := outUse[b := outUse[b] + (inUse[g[b].jt] + inUse[g[b].jf])];
      inUse := inUse[b := inUse[b] + (outUse[b] - kill[b])];
      forall x | x in done + {b} ensures Global(g, rank, inUse, outUse, x) {
        if x != b { assert Global(g, rank, old(inUse), old(outUse), x); }
      }
      forall x | x in visited - (done + {b}) ensures Local(g, kill, inUse, outUse, x) {
        assert Local(g, kill, old(inUse), old(outUse), x);
      }
    }

    /** The uses after and before each block, from the leaves up. */
    method FindUd(levels: seq<seq<int>>, maxlevel: nat, ghost rank: map<int, nat>, ghost root: int,
        ghost visited: set<int>, ghost level: seq<nat>)
      requires Leveled(g, rank, root, visited, level, levels) && maxlevel == level[root]
      requires |kill| == |inUse| == |outUse| == |g|
      modifies this
      ensures Globals(rank, visited)
    {
      LocalSets(levels, maxlevel, rank, root, visited, level);
      LeveledShape(g, rank, root, visited, level, levels);
      hide Ranked, Level, Leveled, LowUpTo, LiveIn, LiveOut, Global, Local;
      ghost var done: set<int> := BottomDone(g, rank, root, visited, level, levels, kill, inUse, outUse);
      for i := 1 to maxlevel + 1
        invariant |kill| == |inUse| == |outUse| == |g| && i <= |levels|
        invariant Globals(rank, done) && Locals(visited - done) && LowUpTo(g, rank, visited, levels, done, i, 0)
      {
        for j := 0 to |levels[i]|
          invariant |kill| == |inUse| == |outUse| == |g| && i < |levels|
          invariant Globals(rank, done) && Locals(visited - done) && LowUpTo(g, rank, visited, levels, done, i, j)
        {
          var b := levels[i][j];
          NextLow(g, rank, root, visited, level, levels, done, i, j);
          UpdateBlock(b, rank, visited, done);
          done := done + {b};
        }
        LowLevelDone(g, rank, root, visited, level, levels, done, i);
      }
      LowAll(g, rank, root, visited, level, levels, done);
    }
  }
}
