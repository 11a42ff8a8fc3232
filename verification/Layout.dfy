/**
 What a laid-out program looks like, and that it does what its graph does
 (the result of convert_code_r and icode_to_fcode in deps/libpcap/optimize.c, run by the
 interpreter of deps/libpcap/bpf_filter.c).
 */
module Layout {
  import opened Basics
  import opened Machine
  import opened Flow
  import opened Order

  function Slen(b: Block): nat { |Live(b.stmts)| }

  /** For each block: must its true (false) branch go through an extra long jump? */
  datatype Flags = Flags(jt: seq<bool>, jf: seq<bool>)

  function Count(flag: bool): nat { if flag then 1 else 0 }

  /** Slots that block b takes. */
  function SizeAt(g: Graph, fl: Flags, b: int): nat
    requires 0 <= b < |g| && |fl.jt| == |fl.jf| == |g|
  {
    Slen(g[b]) + 1 + Count(fl.jt[b]) + Count(fl.jf[b])
  }

  ghost function Sizes(g: Graph, fl: Flags): int -> nat
    requires |fl.jt| == |fl.jf| == |g|
  {
    b => if 0 <= b < |g| then SizeAt(g, fl, b) else 0
  }

  function Plain(s: Stmt): Insn { Insn(s.code, 0, 0, s.k) }

  function LongJump(k: int): Insn
    requires 0 <= k < WORD_SIZE
  {
    Insn(JMP + JA, 0, 0, k)
  }

  /** A branch at position `at` with offset field j goes to `target`, directly or through the
      extra jump number x. */
  predicate Goes(f: seq<Insn>, at: int, j: Byte, target: int, x: nat, flag: bool)
    requires 0 <= at
  {
    var d := target - at - 1;
    && 0 <= d < WORD_SIZE
    && (d < 256 ==> j == d)
    && (d >= 256 ==> flag && j == x && at + 1 + x < |f| && f[at + 1 + x] == LongJump(d - x - 1))
  }

  /** The code of block b is in place at off[b]. */
  predicate Laid(f: seq<Insn>, g: Graph, fl: Flags, off: seq<int>, b: int)
    requires 0 <= b < |g| && |off| == |fl.jt| == |fl.jf| == |g|
  {
    var live, o := Live(g[b].stmts), off[b];
    var at := o + |live|;
    && 0 <= o && o + SizeAt(g, fl, b) <= |f|
    && (forall k :: 0 <= k < |live| ==> f[o + k] == Plain(live[k]))
    && f[at].code == g[b].br.code && f[at].k == g[b].br.k
    && (!Leaf(g[b]) ==>
          && 0 <= g[b].jt < |g| && 0 <= g[b].jf < |g|
          && Goes(f, at, f[at].jt, off[g[b].jt], 0, fl.jt[b])
          && Goes(f, at, f[at].jf, off[g[b].jf], Count(off[g[b].jt] - at - 1 >= 256), fl.jf[b]))
  }

  // ----- simulation -----

  function ConfigOf(v: Verdict): Config {
    match v
    case Returned(w) => Done(w)
    case Rejected => Done(0)
    case Failed => Faulted
  }

  function AfterStmts(e: Effect, pc: int): Config {
    match e
    case Next(r) => At(pc, r)
    case Reject => Done(0)
    case Fault => Faulted
  }

  lemma StepStmt(f: seq<Insn>, s: Stmt, p: Packet, pc: nat, r: Regs)
    requires pc < |f| && f[pc] == Plain(s) && StmtOk(s) && s.code != NOP
    ensures Step(f, p, pc, r) == AfterStmts(RunStmt(s, p, r), pc + 1)
  {
  }

  /** The machine runs a block's statements as the graph does. */
  lemma {:induction false} StmtsSimulated(f: seq<Insn>, o: nat, ss: seq<Stmt>, p: Packet, r: Regs) returns (n: nat)
    requires o + |ss| <= |f|
    requires forall k :: 0 <= k < |ss| ==> f[o + k] == Plain(ss[k]) && StmtOk(ss[k]) && ss[k].code != NOP
    ensures (forall s :: s in ss ==> StmtOk(s)) && Steps(f, p, At(o, r), n) == AfterStmts(RunStmts(ss, p, r), o + |ss|)
    decreases |ss|
  {
    hide StmtOk, Step, Exec, Decode, RunStmt;
    if ss == [] {
      n := 0;
    } else {
      assert f[o + 0] == Plain(ss[0]);
      StepStmt(f, ss[0], p, o, r);
      var e := RunStmt(ss[0], p, r);
      if e.Next? {
        var tail := ss[1..];
        assert forall k :: 0 <= k < |tail| ==> f[(o + 1) + k] == f[o + (k + 1)] && tail[k] == ss[k + 1];
        var m := StmtsSimulated(f, o + 1, tail, p, e.r);
        n := m + 1;
      } else {
        n := 1;
        assert Steps(f, p, Step(f, p, o, r), 0) == Step(f, p, o, r);
      }
    }
  }

  lemma StepBranch(f: seq<Insn>, br: Stmt, p: Packet, pc: nat, r: Regs)
    requires pc < |f| && f[pc].code == br.code && f[pc].k == br.k
    ensures IsBranch(br) ==> Step(f, p, pc, r) == At(Branch(f[pc], pc, Taken(br, r)), r)
    ensures IsReturn(br) ==> Step(f, p, pc, r) == Done(ReturnValue(br, r))
  {
  }

  lemma StepLongJump(f: seq<Insn>, p: Packet, pc: nat, r: Regs, k: nat)
    requires pc < |f| && k < 0x8000_0000 && f[pc] == LongJump(k)
    ensures Step(f, p, pc, r) == At(pc + 1 + k, r)
  {
  }

  /** A branch reaches its target in one or two steps. */
  lemma BranchSimulated(f: seq<Insn>, at: nat, taken: bool, target: int, x: nat, flag: bool, p: Packet, r: Regs)
      returns (n: nat)
    requires at < |f| <= 0x8000_0000 && target <= |f|
    requires Step(f, p, at, r) == At(Branch(f[at], at, taken), r)
    requires Goes(f, at, if taken then f[at].jt else f[at].jf, target, x, flag)
    ensures Steps(f, p, At(at, r), n) == At(target, r)
  {
    hide Step;
    var d := target - at - 1;
    var next := Branch(f[at], at, taken);
    if d < 256 {
      n := 1;
      assert Steps(f, p, At(next, r), 0) == At(next, r);
    } else {
      n := 2;
      StepLongJump(f, p, next, r, d - x - 1);
      assert Steps(f, p, At(target, r), 0) == At(target, r);
      assert Steps(f, p, At(next, r), 1) == At(target, r);
    }
  }

  /** The end of a block: a leaf returns, any other block goes on to the right successor. */
  lemma BlockEnds(f: seq<Insn>, g: Graph, fl: Flags, off: seq<int>, b: int, p: Packet, r: Regs) returns (n: nat)
    requires 0 <= b < |g| && |off| == |fl.jt| == |fl.jf| == |g| && |f| <= 0x8000_0000
    requires Laid(f, g, fl, off, b) && BlockOk(g[b])
    requires !Leaf(g[b]) ==> off[g[b].jt] <= |f| && off[g[b].jf] <= |f|
    ensures Steps(f, p, At(off[b] + Slen(g[b]), r), n) ==
      if Leaf(g[b]) then Done(ReturnValue(g[b].br, r))
      else At(off[if Taken(g[b].br, r) then g[b].jt else g[b].jf], r)
  {
    var at := off[b] + Slen(g[b]);
    var br := g[b].br;
    StepBranch(f, br, p, at, r);
    hide Step, IsBranch, IsReturn, Taken, Live;
    if Leaf(g[b]) {
      n := 1;
      assert Steps(f, p, Done(ReturnValue(br, r)), 0) == Done(ReturnValue(br, r));
    } else if Taken(br, r) {
      n := BranchSimulated(f, at, true, off[g[b].jt], 0, fl.jt[b], p, r);
    } else {
      n := BranchSimulated(f, at, false, off[g[b].jf], Count(off[g[b].jt] - at - 1 >= 256), fl.jf[b], p, r);
    }
  }

  lemma BlockStarts(f: seq<Insn>, g: Graph, fl: Flags, off: seq<int>, b: int, p: Packet, r: Regs) returns (n: nat)
    requires 0 <= b < |g| && |off| == |fl.jt| == |fl.jf| == |g|
    requires Laid(f, g, fl, off, b) && BlockOk(g[b])
    ensures Steps(f, p, At(off[b], r), n) == AfterStmts(RunStmts(g[b].stmts, p, r), off[b] + Slen(g[b]))
  {
    hide Step, Exec, Decode, StmtOk, RunStmts, Live, IsBranch, IsReturn, AfterStmts;
    var live := Live(g[b].stmts);
    LiveRuns(g[b].stmts, p, r);
    forall k | 0 <= k < |live|
      ensures f[off[b] + k] == Plain(live[k]) && StmtOk(live[k]) && live[k].code != NOP
    {
      assert live[k] in live;
    }
    n := StmtsSimulated(f, off[b], live, p, r);
  }

  /** Running the array from a block's offset gives what running the graph from that block
      gives, for every packet and every register content. */
  lemma {:induction false} LayoutSimulates(f: seq<Insn>, g: Graph, rank: map<int, nat>, fl: Flags, off: seq<int>,
      b: int, p: Packet, r: Regs)
      returns (n: nat)
    requires Ranked(g, rank) && b in rank && |off| == |fl.jt| == |fl.jf| == |g| && |f| <= 0x8000_0000
    requires forall x :: x in rank ==> Laid(f, g, fl, off, x) && 0 <= off[x] <= |f|
    ensures Steps(f, p, At(off[b], r), n) == ConfigOf(Run(g, rank, p, b, r))
    decreases rank[b]
  {
    hide Laid, StmtOk, IsBranch, IsReturn, Taken, ReturnValue, Live, RunStmts, Step;
    n := BlockStarts(f, g, fl, off, b, p, r);
    var e := RunStmts(g[b].stmts, p, r);
    if e.Next? {
      var m := BlockEnds(f, g, fl, off, b, p, e.r);
      StepsCompose(f, p, At(off[b], r), n, m);
      n := n + m;
      if !Leaf(g[b]) {
        var t := if Taken(g[b].br, e.r) then g[b].jt else g[b].jf;
        var k := LayoutSimulates(f, g, rank, fl, off, t, p, e.r);
        StepsCompose(f, p, At(off[b], r), n, k);
        n := n + k;
      }
    }
  }
}
