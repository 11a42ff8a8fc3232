/**
 Dead-store removal (deadstmt and opt_deadstores of deps/libpcap/optimize.c): what may be
 deleted, that the pass deletes nothing else, and that the filter's result does not change.
 */
module DeadStores {
  import opened Machine
  import opened Flow
  import opened Liveness

  /** The value that statement i defines is never used. */
  ghost predicate Dead(ss: seq<Stmt>, after: set<int>, i: nat)
    requires i < |ss|
  {
    ss[i].code != NOP && Defs(ss[i]) !! LiveBefore(ss[i + 1..], after)
  }

  ghost predicate PrunedAt(ss: seq<Stmt>, ss': seq<Stmt>, after: set<int>, i: nat)
    requires |ss'| == |ss| && i < |ss|
  {
    ss'[i] == ss[i] || (ss'[i].code == NOP && Dead(ss, after, i))
  }

  /** ss' is ss with some dead statements deleted. */
  ghost predicate Pruned(ss: seq<Stmt>, ss': seq<Stmt>, after: set<int>) {
    |ss'| == |ss| && forall i :: 0 <= i < |ss| ==> PrunedAt(ss, ss', after, i)
  }

  // ----- pruned code does the same -----

  lemma PrunedTail(ss: seq<Stmt>, ss': seq<Stmt>, after: set<int>)
    requires Pruned(ss, ss', after) && ss != []
    ensures Pruned(ss[1..], ss'[1..], after)
  {
    hide LiveBefore, Defs;
    forall i | 0 <= i < |ss| - 1
      ensures PrunedAt(ss[1..], ss'[1..], after, i)
    {
      assert PrunedAt(ss, ss', after, i + 1);
      assert ss[1..][i + 1..] == ss[i + 1 + 1..];
    }
  }

  lemma PrunedGood(ss: seq<Stmt>, ss': seq<Stmt>, after: set<int>)
    requires Pruned(ss, ss', after) && AllGood(ss)
    ensures AllGood(ss')
  {
    forall s | s in ss' ensures Good(s) {
      var i :| 0 <= i < |ss'| && ss'[i] == s;
      assert PrunedAt(ss, ss', after, i);
      assert ss[i] in ss;
    }
  }

  /** When the original statements run to the end, so do the pruned ones, and they agree on
      everything that is used afterwards. */
  lemma {:induction false} PrunedAgrees(ss: seq<Stmt>, ss': seq<Stmt>, p: Packet, r: Regs, r': Regs, after: set<int>)
    requires AllGood(ss) && AllGood(ss') && Pruned(ss, ss', after) && Agree(r, r', LiveBefore(ss, after))
    requires RunStmts(ss, p, r).Next?
    ensures RunStmts(ss', p, r').Next? && Agree(RunStmts(ss, p, r).r, RunStmts(ss', p, r').r, after)
    decreases |ss|
  {
    hide StmtOk, Safe, RunStmt, Uses, Defs;
    if ss != [] {
      assert Good(ss[0]) && Good(ss'[0]);
      var live := LiveBefore(ss[1..], after);
      var e := RunStmt(ss[0], p, r);
      assert PrunedAt(ss, ss', after, 0);
      PrunedTail(ss, ss', after);
      if ss'[0] == ss[0] {
        StmtAgrees(ss[0], p, r, r', live);
        PrunedAgrees(ss[1..], ss'[1..], p, e.r, RunStmt(ss'[0], p, r').r, after);
      } else {
        NopRuns(ss'[0], p, r');
        DeadStmtAgrees(ss[0], p, r, r', live);
        PrunedAgrees(ss[1..], ss'[1..], p, e.r, r', after);
      }
    }
  }

  lemma NopRuns(s: Stmt, p: Packet, r: Regs)
    requires s.code == NOP
    ensures StmtOk(s) && RunStmt(s, p, r) == Next(r)
  {
  }

  // ----- a pruned graph does the same -----

  /** g' is g with dead statements deleted, block by block, by what is live behind each block. */
  ghost predicate PrunedGraph(g: Graph, g': Graph, rank: map<int, nat>)
    requires Ranked(g, rank)
  {
    && |g'| == |g|
    && forall b :: b in rank ==> PrunedBlock(g[b], g'[b], LiveOut(g, rank, b))
  }

  ghost predicate PrunedBlock(b: Block, b': Block, out: set<int>) {
    b' == b.(stmts := b'.stmts) && Pruned(b.stmts, b'.stmts, Uses(b.br) + out)
  }

  lemma PrunedRanked(g: Graph, g': Graph, rank: map<int, nat>)
    requires Ranked(g, rank) && GoodBlocks(g, rank) && PrunedGraph(g, g', rank)
    ensures Ranked(g', rank) && GoodBlocks(g', rank)
    ensures ConstantReturns(g, rank) ==> ConstantReturns(g', rank)
  {
    hide Decode, LiveBefore, Pruned, LiveOut, Safe, StmtOk, Uses;
    forall b | b in rank
      ensures AllGood(g'[b].stmts) && (forall s :: s in g'[b].stmts ==> StmtOk(s))
    {
      assert PrunedBlock(g[b], g'[b], LiveOut(g, rank, b));
      PrunedGood(g[b].stmts, g'[b].stmts, Uses(g[b].br) + LiveOut(g, rank, b));
    }
  }

  /** Deleting the dead stores of every block keeps the result of every run that does not
      reject: a deleted load can only take a rejection away. */
  lemma {:induction false} PruningPreserves(g: Graph, g': Graph, rank: map<int, nat>, b: int, p: Packet, r: Regs,
      r': Regs)
    requires Ranked(g, rank) && Ranked(g', rank) && CoveredReturns(g, rank) && GoodBlocks(g', rank)
    requires PrunedGraph(g, g', rank) && b in rank
    requires Agree(r, r', LiveIn(g, rank, b)) && Run(g, rank, p, b, r).Returned?
    ensures Run(g', rank, p, b, r') == Run(g, rank, p, b, r)
    decreases rank[b]
  {
    hide StmtOk, IsBranch, RunStmts, LiveBefore, BranchUses, Decode, Taken, AllGood, Pruned, Covered, Uses,
      ReturnValue;
    var after := Uses(g[b].br) + LiveOut(g, rank, b);
    EndUses(g, rank, b);
    assert PrunedBlock(g[b], g'[b], LiveOut(g, rank, b));
    assert AllGood(g[b].stmts) && AllGood(g'[b].stmts);
    PrunedAgrees(g[b].stmts, g'[b].stmts, p, r, r', after);
    var e, e' := RunStmts(g[b].stmts, p, r), RunStmts(g'[b].stmts, p, r');
    if Leaf(g[b]) {
      ReturnAgrees(g[b].br, e.r, e'.r);
    } else {
      BranchAgrees(g[b].br, e.r, e'.r);
      PruningPreserves(g, g', rank, if Taken(g[b].br, e.r) then g[b].jt else g[b].jf, p, e.r, e'.r);
    }
  }

  /** A dead store can be what covers a leaf, so only constant returns stay covered from one pass
      to the next. */
  lemma PruningMayUncover()
    ensures var b := Block([Stmt(ST, 0)], Stmt(RET + A, 0), NULL, NULL, false, 0);
      Covered(b) && PrunedBlock(b, b.(stmts := [Stmt(NOP, 0)]), {}) && !Covered(b.(stmts := [Stmt(NOP, 0)]))
  {
    var s, br := Stmt(ST, 0), Stmt(RET + A, 0);
    assert Decode(br.code) == RetA && Uses(s) == {A_ATOM} && Defs(s) == {0} && Uses(br) == {A_ATOM};
    hide Decode, Uses, Defs;
    assert LiveBefore([s][1..], Uses(br) + {}) == {A_ATOM};
    assert PrunedAt([s], [Stmt(NOP, 0)], Uses(br) + {}, 0);
    var b := Block([s], br, NULL, NULL, false, 0);
    assert s in b.stmts;
    NothingUncovered(b.(stmts := [Stmt(NOP, 0)]));
  }

  lemma NothingUncovered(b: Block)
    requires Decode(b.br.code) == RetA && b.stmts == [Stmt(NOP, 0)]
    ensures !Covered(b)
  {
  }

  // ----- the pass -----

  /** No statement from lo on and before hi uses or defines the atom. */
  ghost predicate Untouched(ss: seq<Stmt>, lo: nat, hi: nat, atom: int)
    requires lo <= hi <= |ss|
  {
    forall k :: lo <= k < hi ==> atom !in Uses(ss[k]) && atom !in Defs(ss[k])
  }

  lemma {:induction false} UntouchedLive(ss: seq<Stmt>, lo: int, hi: int, atom: int, after: set<int>)
    requires 0 <= lo <= hi <= |ss| && Untouched(ss, lo, hi, atom)
    ensures atom in LiveBefore(ss[lo..], after) <==> atom in LiveBefore(ss[hi..], after)
    decreases hi - lo
  {
    hide Uses, Defs;
    if lo < hi {
      assert ss[lo..][1..] == ss[lo + 1..];
      UntouchedLive(ss, lo + 1, hi, atom, after);
    }
  }

  /** The last statement that defines an atom which nothing has touched since, or -1. */
  ghost predicate LastAt(ss: seq<Stmt>, last: seq<int>, i: nat, atom: nat)
    requires i <= |ss| && |last| == N_ATOMS && atom < N_ATOMS
  {
    last[atom] < 0 || (last[atom] < i && Defs(ss[last[atom]]) == {atom} && ss[last[atom]].code != NOP
      && Untouched(ss, last[atom] + 1, i, atom))
  }

  ghost predicate Tracks(ss: seq<Stmt>, last: seq<int>, i: nat) {
    i <= |ss| && |last| == N_ATOMS && forall atom :: 0 <= atom < N_ATOMS ==> LastAt(ss, last, i, atom)
  }

  /** Forget the definitions that a statement uses. */
  function Forget(last: seq<int>, atom: int): (l: seq<int>)
    requires |last| == N_ATOMS && atom <= AX_ATOM
    ensures |l| == N_ATOMS
  {
    if atom < 0 then last
    else if atom == AX_ATOM then last[X_ATOM := -1][A_ATOM := -1]
    else last[atom := -1]
  }

  lemma AtomRange(s: Stmt)
    requires Good(s)
    ensures AtomUse(s) <= AX_ATOM && AtomDef(s) < N_ATOMS
  {
    if s.code != NOP { Decoded(s); }
  }

  lemma ForgetTracks(ss: seq<Stmt>, last: seq<int>, i: nat)
    requires Tracks(ss, last, i) && i < |ss| && AtomUse(ss[i]) <= AX_ATOM && AtomDef(ss[i]) < N_ATOMS
    ensures var l := Forget(last, AtomUse(ss[i]));
      var l' := if AtomDef(ss[i]) < 0 then l else l[AtomDef(ss[i]) := i];
      Tracks(ss, l', i + 1)
  {
    var l := Forget(last, AtomUse(ss[i]));
    var l' := if AtomDef(ss[i]) < 0 then l else l[AtomDef(ss[i]) := i];
    var n := i + 1;
    forall atom | 0 <= atom < N_ATOMS ensures LastAt(ss, l', n, atom) {
      assert LastAt(ss, last, i, atom);
    }
  }

  /** A definition that is overwritten before any use is dead. */
  lemma OverwrittenIsDead(ss: seq<Stmt>, last: seq<int>, i: nat, atom: nat, after: set<int>)
    requires Tracks(ss, last, i) && i < |ss| && atom < N_ATOMS && AtomUse(ss[i]) <= AX_ATOM && AtomDef(ss[i]) == atom
    requires Forget(last, AtomUse(ss[i]))[atom] >= 0
    ensures var j := Forget(last, AtomUse(ss[i]))[atom]; j < i && Dead(ss, after, j)
  {
    var j := Forget(last, AtomUse(ss[i]))[atom];
    assert LastAt(ss, last, i, atom);
    UntouchedLive(ss, j + 1, i, atom, after);
    assert ss[i..][1..] == ss[i + 1..];
  }

  /** The statement at k after the pass: deleted if and only if it is dead. */
  ghost predicate Decided(ss: seq<Stmt>, cur: seq<Stmt>, after: set<int>, k: nat)
    requires k < |ss| == |cur|
  {
    cur[k] == if Dead(ss, after, k) then ss[k].(code := NOP) else ss[k]
  }

  /** Statement k is the last definition of its atom, which nothing has touched since. */
  ghost predicate IsLast(ss: seq<Stmt>, last: seq<int>, k: nat)
    requires k < |ss| && |last| == N_ATOMS
  {
    0 <= AtomDef(ss[k]) < N_ATOMS && last[AtomDef(ss[k])] == k
  }

  /** After the first i statements: those still tracked are untouched, the others decided. */
  ghost predicate Progress(ss: seq<Stmt>, cur: seq<Stmt>, last: seq<int>, after: set<int>, i: nat) {
    && |cur| == |ss| && Tracks(ss, last, i)
    && (forall k :: 0 <= k < |ss| ==> ProgressAt(ss, cur, last, after, i, k))
  }

  ghost predicate ProgressAt(ss: seq<Stmt>, cur: seq<Stmt>, last: seq<int>, after: set<int>, i: nat, k: nat)
    requires k < |ss| == |cur| && |last| == N_ATOMS
  {
    if k >= i || IsLast(ss, last, k) then cur[k] == ss[k] else Decided(ss, cur, after, k)
  }

  /** A definition that is used before anything touches it is not dead. */
  lemma UsedIsLive(ss: seq<Stmt>, k: nat, i: nat, atom: int, after: set<int>)
    requires k < i < |ss| && Defs(ss[k]) == {atom} && Untouched(ss, k + 1, i, atom) && atom in Uses(ss[i])
    ensures !Dead(ss, after, k)
  {
    hide Uses, Defs, Untouched;
    UntouchedLive(ss, k + 1, i, atom, after);
    assert ss[i..][0] == ss[i];
    assert atom in LiveBefore(ss[i..], after);
  }

  lemma LiveAtEnd(ss: seq<Stmt>, k: nat, atom: int, after: set<int>)
    requires k < |ss| && Defs(ss[k]) == {atom} && Untouched(ss, k + 1, |ss|, atom)
    ensures ss[k].code != NOP ==> (Dead(ss, after, k) <==> atom !in after)
  {
    hide Uses, Defs, Untouched;
    UntouchedLive(ss, k + 1, |ss|, atom, after);
    assert ss[|ss|..] == [];
  }

  /** A deleted statement stays deleted: it defines nothing and is never dead again. */
  lemma NopDecided(ss: seq<Stmt>, k: nat, after: set<int>)
    requires k < |ss| && ss[k].code == NOP
    ensures !Dead(ss, after, k) && AtomDef(ss[k]) < 0
  {
  }

  lemma Defines(s: Stmt)
    requires Good(s) && s.code != NOP
    ensures 0 <= AtomDef(s) < N_ATOMS && AtomUse(s) <= AX_ATOM
  {
    Decoded(s);
  }

  lemma GoodRange(ss: seq<Stmt>, i: nat)
    requires AllGood(ss) && i < |ss|
    ensures AtomUse(ss[i]) <= AX_ATOM && AtomDef(ss[i]) < N_ATOMS && (AtomDef(ss[i]) < 0 <==> ss[i].code == NOP)
  {
    hide Good, AtomUse, AtomDef;
    assert ss[i] in ss;
    AtomRange(ss[i]);
    if ss[i].code == NOP { NopDecided(ss, i, {}); } else { Defines(ss[i]); }
  }

  lemma StartTracking(ss: seq<Stmt>, last: seq<int>, after: set<int>)
    requires |last| == N_ATOMS && forall atom :: 0 <= atom < N_ATOMS ==> last[atom] == -1
    ensures Progress(ss, ss, last, after, 0)
  {
    hide Dead;
  }

  /** The list of statements after one more of them has been looked at. */
  ghost function Looked(cur: seq<Stmt>, l: seq<int>, atom: int): seq<Stmt>
    requires |l| == N_ATOMS && atom < N_ATOMS && (atom >= 0 ==> l[atom] < |cur|)
  {
    if atom >= 0 && l[atom] >= 0 then cur[l[atom] := cur[l[atom]].(code := NOP)] else cur
  }

  /** What is known of the last definition of an atom, and what forgetting leaves. */
  lemma LastFacts(ss: seq<Stmt>, last: seq<int>, i: nat, atom: nat, use: int)
    requires Tracks(ss, last, i) && atom < N_ATOMS && use <= AX_ATOM
    ensures last[atom] < i
    ensures last[atom] >= 0 ==>
      AtomDef(ss[last[atom]]) == atom && Defs(ss[last[atom]]) == {atom} && Untouched(ss, last[atom] + 1, i, atom)
        && ss[last[atom]].code != NOP
    ensures Forget(last, use)[atom] == last[atom] || (Forget(last, use)[atom] == -1 && Forgets(use, atom))
    ensures Forgets(use, atom) ==> Forget(last, use)[atom] == -1
  {
    hide Untouched, AtomDef;
    assert LastAt(ss, last, i, atom);
  }

  predicate Forgets(use: int, atom: int) { if use == AX_ATOM then atom == A_ATOM || atom == X_ATOM else use == atom }

  lemma ForgetsUses(s: Stmt, atom: nat)
    requires AtomUse(s) <= AX_ATOM && atom < N_ATOMS
    ensures Forgets(AtomUse(s), atom) <==> atom in Uses(s)
  {
    hide AtomUse;
  }

  lemma StepAt(ss: seq<Stmt>, cur: seq<Stmt>, last: seq<int>, after: set<int>, i: nat, k: nat)
    requires |last| == N_ATOMS && AllGood(ss) && Progress(ss, cur, last, after, i) && k < i < |ss|
    requires AtomUse(ss[i]) <= AX_ATOM && AtomDef(ss[i]) < N_ATOMS
    requires AtomDef(ss[i]) >= 0 ==> Forget(last, AtomUse(ss[i]))[AtomDef(ss[i])] < |cur|
    ensures var l, atom := Forget(last, AtomUse(ss[i])), AtomDef(ss[i]);
      ProgressAt(ss, Looked(cur, l, atom), if atom < 0 then l else l[atom := i], after, i + 1, k)
  {
    hide AllGood, Tracks, Forget, AtomUse, AtomDef, Dead, Forgets, Untouched, Uses, Defs;
    assert ProgressAt(ss, cur, last, after, i, k);
    GoodRange(ss, k);
    var l, atom, a := Forget(last, AtomUse(ss[i])), AtomDef(ss[i]), AtomDef(ss[k]);
    if atom >= 0 { LastFacts(ss, last, i, atom, AtomUse(ss[i])); }
    if a >= 0 {
      LastFacts(ss, last, i, a, AtomUse(ss[i]));
      ForgetsUses(ss[i], a);
      if last[a] == k {
        if a in Uses(ss[i]) {
          UsedIsLive(ss, k, i, a, after);
        } else if a == atom {
          OverwrittenIsDead(ss, last, i, atom, after);
        }
      }
    } else {
      NopDecided(ss, k, after);
    }
  }

  lemma ProgressStep(ss: seq<Stmt>, cur: seq<Stmt>, last: seq<int>, after: set<int>, i: nat)
    requires |last| == N_ATOMS && AllGood(ss) && Progress(ss, cur, last, after, i) && i < |ss|
    requires AtomUse(ss[i]) <= AX_ATOM && AtomDef(ss[i]) < N_ATOMS
    ensures var l, atom := Forget(last, AtomUse(ss[i])), AtomDef(ss[i]);
      && (atom >= 0 ==> l[atom] < i)
      && Progress(ss, Looked(cur, l, atom), if atom < 0 then l else l[atom := i], after, i + 1)
  {
    hide AllGood, Tracks, Forget, AtomUse, AtomDef, Dead, Decided, Looked;
    var l, atom := Forget(last, AtomUse(ss[i])), AtomDef(ss[i]);
    ForgetTracks(ss, last, i);
    if atom >= 0 { LastFacts(ss, last, i, atom, AtomUse(ss[i])); }
    var cur', last', n := Looked(cur, l, atom), if atom < 0 then l else l[atom := i], i + 1;
    LookedSize(cur, l, atom);
    forall k | 0 <= k < |ss| ensures ProgressAt(ss, cur', last', after, n, k) {
      if k < i {
        StepAt(ss, cur, last, after, i, k);
      } else {
        StepLater(ss, cur, last, after, i, k);
      }
    }
  }

  lemma LookedSize(cur: seq<Stmt>, l: seq<int>, atom: int)
    requires |l| == N_ATOMS && atom < N_ATOMS && (atom >= 0 ==> l[atom] < |cur|)
    ensures |Looked(cur, l, atom)| == |cur|
  {
  }

  lemma StepLater(ss: seq<Stmt>, cur: seq<Stmt>, last: seq<int>, after: set<int>, i: nat, k: nat)
    requires |last| == N_ATOMS && AllGood(ss) && Progress(ss, cur, last, after, i) && i <= k < |ss|
    requires AtomUse(ss[i]) <= AX_ATOM && AtomDef(ss[i]) < N_ATOMS
    requires AtomDef(ss[i]) >= 0 ==> Forget(last, AtomUse(ss[i]))[AtomDef(ss[i])] < i
    ensures var l, atom := Forget(last, AtomUse(ss[i])), AtomDef(ss[i]);
      |cur| == |ss| && ProgressAt(ss, Looked(cur, l, atom), if atom < 0 then l else l[atom := i], after, i + 1, k)
  {
    hide AllGood, Tracks, Forget, AtomUse, AtomDef, Dead;
    assert ProgressAt(ss, cur, last, after, i, k);
    GoodRange(ss, i);
    if ss[i].code == NOP { NopDecided(ss, i, after); }
  }

  // ----- the end of the block -----

  /** After the atoms below a have been looked at. */
  ghost predicate Ending(ss: seq<Stmt>, cur: seq<Stmt>, last: seq<int>, after: set<int>, a: nat) {
    && |cur| == |ss| && Tracks(ss, last, |ss|)
    && (forall k :: 0 <= k < |ss| ==> EndingAt(ss, cur, last, after, a, k))
  }

  ghost predicate EndingAt(ss: seq<Stmt>, cur: seq<Stmt>, last: seq<int>, after: set<int>, a: nat, k: nat)
    requires k < |ss| == |cur| && |last| == N_ATOMS
  {
    if IsLast(ss, last, k) && AtomDef(ss[k]) >= a then cur[k] == ss[k] else Decided(ss, cur, after, k)
  }

  lemma BranchForgets(ss: seq<Stmt>, cur: seq<Stmt>, br: Stmt, last: seq<int>, after: set<int>)
    requires |last| == N_ATOMS && AllGood(ss) && Progress(ss, cur, last, after, |ss|) && AtomUse(br) <= AX_ATOM
    requires Uses(br) <= after
    ensures Ending(ss, cur, Forget(last, AtomUse(br)), after, 0)
    ensures forall atom :: 0 <= atom < N_ATOMS && Forget(last, AtomUse(br))[atom] >= 0 ==> atom !in Uses(br)
  {
    hide AllGood, Forget, AtomUse, AtomDef, Dead, Forgets, Untouched, Uses, Defs;
    var last' := Forget(last, AtomUse(br));
    forall atom | 0 <= atom < N_ATOMS
      ensures LastAt(ss, last', |ss|, atom) && (last'[atom] >= 0 ==> atom !in Uses(br))
    {
      LastFacts(ss, last, |ss|, atom, AtomUse(br));
      ForgetsUses(br, atom);
      assert LastAt(ss, last, |ss|, atom);
    }
    forall k | 0 <= k < |ss| ensures EndingAt(ss, cur, last', after, 0, k) {
      assert ProgressAt(ss, cur, last, after, |ss|, k);
      GoodRange(ss, k);
      var a := AtomDef(ss[k]);
      if a >= 0 {
        LastFacts(ss, last, |ss|, a, AtomUse(br));
        ForgetsUses(br, a);
        if last[a] == k && last'[a] != k { LiveAtEnd(ss, k, a, after); }
      }
    }
  }

  lemma EndStep(ss: seq<Stmt>, cur: seq<Stmt>, last: seq<int>, after: set<int>, a: nat)
    requires |last| == N_ATOMS && AllGood(ss) && Ending(ss, cur, last, after, a) && a < N_ATOMS
    ensures last[a] < |ss|
    ensures Ending(ss,
      if last[a] >= 0 && a !in after then cur[last[a] := cur[last[a]].(code := NOP)] else cur, last, after, a + 1)
  {
    hide AllGood, Tracks, AtomDef, Dead, Untouched, Defs;
    LastFacts(ss, last, |ss|, a, -1);
    var cur', n := if last[a] >= 0 && a !in after then cur[last[a] := cur[last[a]].(code := NOP)] else cur, a + 1;
    forall k | 0 <= k < |ss| ensures EndingAt(ss, cur', last, after, n, k) {
      assert EndingAt(ss, cur, last, after, a, k);
      if IsLast(ss, last, k) && AtomDef(ss[k]) == a { LiveAtEnd(ss, k, a, after); }
    }
  }

  /** What the pass leaves is a pruned block. */
  lemma DecidedIsPruned(ss: seq<Stmt>, cur: seq<Stmt>, after: set<int>)
    requires |cur| == |ss| && forall k :: 0 <= k < |ss| ==> Decided(ss, cur, after, k)
    ensures Pruned(ss, cur, after)
  {
    hide Dead;
    forall k | 0 <= k < |ss| ensures PrunedAt(ss, cur, after, k) { assert Decided(ss, cur, after, k); }
  }

  /** A branch or a return uses atoms and defines none. */
  lemma BlockEndUses(b: Block)
    requires BlockOk(b)
    ensures AtomUse(b.br) <= AX_ATOM && AtomDef(b.br) < 0
  {
  }

  /** Delete a statement in place. */
  method Delete(stmts: array<Stmt>, j: nat)
    requires j < stmts.Length
    modifies stmts
    ensures stmts[..] == old(stmts[..])[j := old(stmts[j]).(code := NOP)]
  {
    stmts[j] := stmts[j].(code := NOP);
  }

  /** opt_deadstores on the statements of one block: exactly the dead ones are deleted. */
  method OptDeadstores(stmts: array<Stmt>, br: Stmt, out: set<int>)
    requires AllGood(stmts[..]) && AtomUse(br) <= AX_ATOM && AtomDef(br) < 0
    modifies stmts
    ensures forall k :: 0 <= k < stmts.Length ==> Decided(old(stmts[..]), stmts[..], Uses(br) + out, k)
    ensures Pruned(old(stmts[..]), stmts[..], Uses(br) + out)
  {
    hide Pruned, Progress, Ending, Dead, Forget, AtomUse, AtomDef, Uses, AllGood, Looked;
    ghost var ss, after := stmts[..], Uses(br) + out;
    var last := seq(N_ATOMS, _ => -1);
    StartTracking(ss, last, after);
    var i := 0;
    while i < stmts.Length
      invariant 0 <= i <= stmts.Length && |last| == N_ATOMS && Progress(ss, stmts[..], last, after, i)
    {
      SameLater(ss, stmts[..], last, after, i);
      GoodRange(ss, i);
      ProgressStep(ss, stmts[..], last, after, i);
      var s := stmts[i];
      LookedIs(stmts[..], Forget(last, AtomUse(s)), AtomDef(s));
      last := Forget(last, AtomUse(s));
      var atom := AtomDef(s);
      if atom >= 0 {
        if last[atom] >= 0 { Delete(stmts, last[atom]); }
        last := last[atom := i];
      }
      i := i + 1;
    }
    BranchForgets(ss, stmts[..], br, last, after);
    last := Forget(last, AtomUse(br));
    var atom := 0;
    while atom < N_ATOMS
      invariant 0 <= atom <= N_ATOMS && |last| == N_ATOMS && Ending(ss, stmts[..], last, after, atom)
    {
      EndStep(ss, stmts[..], last, after, atom);
      if last[atom] >= 0 && atom !in out {
        Delete(stmts, last[atom]);
      }
      atom := atom + 1;
    }
    AllDecided(ss, stmts[..], last, after);
    DecidedIsPruned(ss, stmts[..], after);
  }

  lemma SameLater(ss: seq<Stmt>, cur: seq<Stmt>, last: seq<int>, after: set<int>, i: nat)
    requires Progress(ss, cur, last, after, i) && i < |ss|
    ensures |cur| == |ss| && cur[i] == ss[i]
  {
    hide Dead;
    assert ProgressAt(ss, cur, last, after, i, i);
  }

  lemma LookedIs(cur: seq<Stmt>, l: seq<int>, atom: int)
    requires |l| == N_ATOMS && atom < N_ATOMS && (atom >= 0 ==> l[atom] < |cur|)
    ensures Looked(cur, l, atom)
      == if atom >= 0 && l[atom] >= 0 then cur[l[atom] := cur[l[atom]].(code := NOP)] else cur
  {
  }

  lemma AllDecided(ss: seq<Stmt>, cur: seq<Stmt>, last: seq<int>, after: set<int>)
    requires Ending(ss, cur, last, after, N_ATOMS)
    ensures |cur| == |ss| && forall k :: 0 <= k < |ss| ==> Decided(ss, cur, after, k)
  {
    hide Dead, Decided;
    forall k | 0 <= k < |ss| ensures Decided(ss, cur, after, k) { assert EndingAt(ss, cur, last, after, N_ATOMS, k); }
  }
}
