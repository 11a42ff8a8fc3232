/**
 The program that the layout pass produces is accepted by the validator, jumps only forward,
 and computes what the graph computes.
 */
module LayoutValid {
  import opened Machine
  import opened Flow
  import opened Order
  import opened Layout
  import opened LayoutPass
  import opened Validator

  predicate SafeBlock(b: Block) { forall s :: s in b.stmts ==> Safe(s) }

  lemma PlainCode(code: int)
    requires IsPlain(Decode(code))
    ensures 0 <= code && Listed(code) && Class(code) != JMP && Class(code) != RET
  {
    hide Decode, Listed;
    PlainListed(code);
    PlainClass(code);
  }

  lemma PlainListed(code: int)
    requires IsPlain(Decode(code))
    ensures 0 <= code && Listed(code)
  {
    hide Decode, Listed;
    if code % 8 == ALU { PlainAluListed(code); } else { PlainOtherListed(code); }
  }

  lemma PlainAluListed(code: int)
    requires code % 8 == ALU && IsPlain(Decode(code))
    ensures 0 <= code && Listed(code)
  {
    AluClass(code);
    hide Decode;
  }

  lemma PlainOtherListed(code: int)
    requires code % 8 != ALU && IsPlain(Decode(code))
    ensures 0 <= code && Listed(code)
  {
  }

  lemma PlainClass(code: int)
    requires IsPlain(Decode(code)) && 0 <= code
    ensures Class(code) != JMP && Class(code) != RET
  {
  }

  lemma PlainOperand(s: Stmt)
    requires IsPlain(Decode(s.code)) && Safe(s) && 0 <= s.code
    ensures TouchesScratch(s.code) ==> s.k < MEMWORDS
    ensures DividesByConstant(s.code) ==> s.k != 0
  {
    hide Decode, TouchesScratch, DividesByConstant;
    if TouchesScratch(s.code) { ScratchDecodes(s.code); }
    if DividesByConstant(s.code) { DivisionDecodes(s.code); }
  }

  lemma ScratchDecodes(code: nat)
    requires IsPlain(Decode(code)) && TouchesScratch(code)
    ensures Decode(code) in {LdMem, LdxMem, StA, StX}
  {
  }

  lemma DivisionDecodes(code: nat)
    requires IsPlain(Decode(code)) && DividesByConstant(code)
    ensures Decode(code) == AluK(Div) || Decode(code) == AluK(Mod)
  {
  }

  lemma BranchCode(s: Stmt)
    requires IsBranch(s)
    ensures 0 <= s.code && Listed(s.code) && Class(s.code) == JMP && OpBits(s.code) != JA
  {
  }

  lemma ReturnCode(s: Stmt)
    requires IsReturn(s)
    ensures 0 <= s.code && Listed(s.code) && Class(s.code) == RET
  {
  }

  // ----- each slot of the array -----

  /** The validator accepts the instruction, the interpreter knows it, and it does not jump back. */
  predicate SlotOk(f: seq<Insn>, pc: nat)
    requires pc < |f|
  {
    InsnOk(f, pc) && !Decode(f[pc].code).Bad? && (Decode(f[pc].code).Ja? ==> f[pc].k < 0x8000_0000)
  }

  lemma StmtSlot(f: seq<Insn>, s: Stmt, pc: nat)
    requires pc < |f| && f[pc] == Plain(s) && StmtOk(s) && s.code != NOP && Safe(s)
    ensures SlotOk(f, pc)
  {
    PlainCode(s.code);
    PlainOperand(s);
    hide Decode, TouchesScratch, DividesByConstant;
  }

  lemma LongJumpSlot(f: seq<Insn>, pc: nat, k: nat)
    requires pc < |f| && pc + 1 + k < |f| < 0x8000_0000 && f[pc] == LongJump(k)
    ensures SlotOk(f, pc)
  {
  }

  lemma BranchSlot(f: seq<Insn>, br: Stmt, pc: nat, t: int, t': int, x: nat, fl: bool, fl': bool)
    requires pc < |f| < 0x8000_0000 && f[pc].code == br.code && IsBranch(br) && t < |f| && t' < |f|
    requires Goes(f, pc, f[pc].jt, t, 0, fl) && Goes(f, pc, f[pc].jf, t', x, fl')
    ensures SlotOk(f, pc)
  {
    BranchCode(br);
    hide Decode;
    assert Targets(f[pc], pc) == {pc + 1 + f[pc].jt, pc + 1 + f[pc].jf};
  }

  lemma ReturnSlot(f: seq<Insn>, br: Stmt, pc: nat)
    requires pc < |f| && f[pc].code == br.code && IsReturn(br)
    ensures SlotOk(f, pc) && Class(f[pc].code) == RET
  {
    ReturnCode(br);
    hide Decode;
    assert Targets(f[pc], pc) == {};
  }

  /** Every slot of a laid-out block is fine, provided no slot was left over. */
  lemma BlockSlots(f: seq<Insn>, g: Graph, fl: Flags, off: seq<int>, b: int, pc: int)
    requires Shaped(g, fl, off) && 0 <= b < |g| && |f| < 0x8000_0000
    requires Laid(f, g, fl, off, b) && BlockOk(g[b]) && SafeBlock(g[b])
    requires !Leaf(g[b]) ==> off[g[b].jt] < |f| && off[g[b].jf] < |f|
    requires fl.jt[b] ==> !Leaf(g[b]) && off[g[b].jt] - (off[b] + Slen(g[b])) - 1 >= 256
    requires fl.jf[b] ==> !Leaf(g[b]) && off[g[b].jf] - (off[b] + Slen(g[b])) - 1 >= 256
    requires off[b] <= pc < off[b] + SizeAt(g, fl, b)
    ensures SlotOk(f, pc)
  {
    hide Decode, SlotOk, IsBranch, IsReturn, StmtOk, Safe;
    var live := Live(g[b].stmts);
    hide Live;
    var at := off[b] + |live|;
    if pc < at {
      var k := pc - off[b];
      assert f[off[b] + k] == Plain(live[k]);
      assert live[k] in live;
      StmtSlot(f, live[k], pc);
    } else if pc == at {
      if Leaf(g[b]) {
        ReturnSlot(f, g[b].br, pc);
      } else {
        BranchSlot(f, g[b].br, pc, off[g[b].jt], off[g[b].jf], Count(off[g[b].jt] - at - 1 >= 256), fl.jt[b], fl.jf[b]);
      }
    } else if fl.jt[b] && pc == at + 1 {
      LongJumpSlot(f, pc, off[g[b].jt] - at - 2);
    } else {
      LongJumpSlot(f, pc, off[g[b].jf] - pc - 1);
    }
  }

  // ----- the whole array -----

  /** The block that a slot belongs to. */
  lemma {:induction false} SlotOwner(order: seq<int>, size: int -> nat, pc: nat, i: nat) returns (k: nat)
    requires i <= |order| && pc < Sum(order[..i], size)
    ensures k < |order| && Sum(order[..k], size) <= pc < Sum(order[..k + 1], size)
    decreases i
  {
    if i > 0 { SumNext(order, i - 1, size); }
    if pc >= Sum(order[..i - 1], size) {
      k := i - 1;
    } else {
      k := SlotOwner(order, size, pc, i - 1);
    }
  }

  /** A finished layout: what icode_to_fcode returns. */
  ghost predicate LaidOut(f: seq<Insn>, g: Graph, fl: Flags, off: seq<int>, order: seq<int>) {
    && AllPlaced(f, g, fl, off, order) && Finished(g, order) && Justified(g, fl, order)
    && |f| == Sum(order, Sizes(g, fl)) < 0x8000_0000
  }

  ghost predicate GoodBlocks(g: Graph, order: seq<int>) {
    forall i :: 0 <= i < |order| ==> 0 <= order[i] < |g| && BlockOk(g[order[i]]) && SafeBlock(g[order[i]])
  }

  /** Offsets along an edge, and the distance that was measured. */
  lemma EdgeOffsets(f: seq<Insn>, g: Graph, fl: Flags, off: seq<int>, order: seq<int>, k: nat, t: int)
    requires LaidOut(f, g, fl, off, order) && k < |order| && 0 <= order[k] < |g| && !Leaf(g[order[k]])
    requires t == g[order[k]].jt || t == g[order[k]].jf
    ensures 0 <= t < |g| && t in order && off[t] < |f|
    ensures Distance(g, fl, order, order[k], t) == off[t] - (off[order[k]] + Slen(g[order[k]])) - 1
  {
    hide Sum, Sizes, Live, Laid, Finished, Justified, Distance;
    var b := order[k];
    var i := EdgeIndex(g, order, k, t);
    assert PlacedAt(f, g, fl, off, order, k) && PlacedAt(f, g, fl, off, order, i);
    SizesUnfold(g, fl, t);
    SumNext(order, i, Sizes(g, fl));
    SumPrefix(order, i + 1, Sizes(g, fl));
    DistanceAt(g, fl, order, k, i);
  }

  lemma EdgeIndex(g: Graph, order: seq<int>, k: nat, t: int) returns (i: nat)
    requires Finished(g, order) && k < |order| && 0 <= order[k] < |g| && !Leaf(g[order[k]])
    requires t == g[order[k]].jt || t == g[order[k]].jf
    ensures i < k && order[i] == t && 0 <= t < |g|
  {
    assert SuccsIn(g, order[k], Elems(order[..k]));
    i :| 0 <= i < k && order[i] == t;
  }

  lemma DistanceAt(g: Graph, fl: Flags, order: seq<int>, k: nat, i: nat)
    requires Finished(g, order) && i < k < |order| && 0 <= order[k] < |g| && |fl.jt| == |fl.jf| == |g|
    ensures Distance(g, fl, order, order[k], order[i])
         == Sum(order[..k + 1], Sizes(g, fl)) - Sum(order[..i + 1], Sizes(g, fl)) - Slen(g[order[k]]) - 1
  {
    hide Sum, Sizes, Live;
    assert Pos(order, order[k]) == k && Pos(order, order[i]) == i;
  }

  lemma SlotInBlock(f: seq<Insn>, g: Graph, fl: Flags, off: seq<int>, order: seq<int>, k: nat, pc: int)
    requires LaidOut(f, g, fl, off, order) && GoodBlocks(g, order) && k < |order| && 0 <= order[k] < |g|
    requires off[order[k]] <= pc < off[order[k]] + SizeAt(g, fl, order[k])
    ensures 0 <= pc < |f| && SlotOk(f, pc)
  {
    hide Sum, Sizes, Live, Laid, Finished, Distance, BlockOk, SafeBlock, SlotOk;
    var b := order[k];
    assert PlacedAt(f, g, fl, off, order, k);
    assert JustifiedAt(g, fl, order, b);
    if !Leaf(g[b]) {
      EdgeOffsets(f, g, fl, off, order, k, g[b].jt);
      EdgeOffsets(f, g, fl, off, order, k, g[b].jf);
    }
    LaidInside(f, g, fl, off, b);
    BlockSlots(f, g, fl, off, b, pc);
  }

  lemma LaidInside(f: seq<Insn>, g: Graph, fl: Flags, off: seq<int>, b: int)
    requires Shaped(g, fl, off) && 0 <= b < |g| && Laid(f, g, fl, off, b)
    ensures 0 <= off[b] && off[b] + SizeAt(g, fl, b) <= |f|
  {
  }

  lemma EverySlot(f: seq<Insn>, g: Graph, fl: Flags, off: seq<int>, order: seq<int>, pc: nat)
    requires LaidOut(f, g, fl, off, order) && GoodBlocks(g, order) && pc < |f|
    ensures SlotOk(f, pc)
  {
    hide Sum, Live, Laid, Finished, Justified, GoodBlocks, SlotOk;
    var size := Sizes(g, fl);
    assert order[..|order|] == order;
    var k := SlotOwner(order, size, |f| - 1 - pc, |order|);
    SumNext(order, k, size);
    assert PlacedAt(f, g, fl, off, order, k);
    SlotInBlock(f, g, fl, off, order, k, pc);
  }

  /** The first block finished is a return, and it ends the array. */
  lemma LastSlot(f: seq<Insn>, g: Graph, fl: Flags, off: seq<int>, order: seq<int>)
    requires LaidOut(f, g, fl, off, order) && GoodBlocks(g, order) && |order| > 0
    ensures |f| > 0 && Class(f[|f| - 1].code) == RET
  {
    hide Sum, Live, Distance, StmtOk, IsBranch, IsReturn;
    var b, size := order[0], Sizes(g, fl);
    assert PlacedAt(f, g, fl, off, order, 0);
    assert JustifiedAt(g, fl, order, b);
    assert SuccsIn(g, order[0], Elems(order[..0]));
    SumNext(order, 0, size);
    NoSum(size);
    assert order[..0] == [];
    ReturnSlot(f, g[b].br, |f| - 1);
  }

  lemma NoSum(size: int -> nat)
    ensures Sum([], size) == 0
  {
  }

  /** What the layout pass produces passes the validator, for any statements whose operands
      are in range. */
  lemma LayoutAccepted(f: seq<Insn>, g: Graph, fl: Flags, off: seq<int>, order: seq<int>)
    requires LaidOut(f, g, fl, off, order) && GoodBlocks(g, order) && |order| > 0
    ensures Valid(f) && Forward(f) && Known(f)
  {
    hide LaidOut, GoodBlocks, Decode;
    LastSlot(f, g, fl, off, order);
    forall pc | 0 <= pc < |f|
      ensures InsnOk(f, pc) && !Decode(f[pc].code).Bad? && (Decode(f[pc].code).Ja? ==> f[pc].k < 0x8000_0000)
    {
      EverySlot(f, g, fl, off, order, pc);
    }
  }

  // ----- what the array computes -----

  ghost function Restrict(rank: map<int, nat>, order: seq<int>): map<int, nat>
    requires forall i :: 0 <= i < |order| ==> order[i] in rank
  {
    map b | b in order :: rank[b]
  }

  lemma RestrictRanked(g: Graph, rank: map<int, nat>, order: seq<int>)
    requires Ranked(g, rank) && ClosedSet(g, Elems(order))
    requires forall i :: 0 <= i < |order| ==> order[i] in rank
    ensures Ranked(g, Restrict(rank, order))
  {
    hide BlockOk;
    forall b | b in Restrict(rank, order)
      ensures SuccsIn(g, b, Elems(order))
    {
      assert b in Elems(order);
    }
  }

  /** For every packet and every initial content of the registers, the array returns, within as
      many steps as it has instructions, exactly what the graph returns. */
  lemma LayoutComputes(f: seq<Insn>, g: Graph, rank: map<int, nat>, root: int, fl: Flags, off: seq<int>,
      order: seq<int>, p: Packet, r: Regs)
    requires Ranked(g, rank) && root in rank && order == WalkOrder(g, rank, root)
    requires LaidOut(f, g, fl, off, order) && GoodBlocks(g, order) && off[root] == 0
    ensures Valid(f) && Steps(f, p, At(0, r), |f|) == ConfigOf(Run(g, rank, p, root, r))
    ensures Run(g, rank, p, root, r) != Failed
  {
    hide Finished, Justified, Decode, Sum, Sizes, Live, Laid, BlockOk, GoodBlocks, Visit, Valid, Forward, Known, Run,
      Step;
    WalkOrderGood(g, rank, root);
    WalkOrderClosed(g, rank, root);
    LayoutAccepted(f, g, fl, off, order);
    AcceptedReturns(f, p, r);
    var rank' := Restrict(rank, order);
    RestrictRanked(g, rank, order);
    assert root in order;
    forall b | b in rank'
      ensures Laid(f, g, fl, off, b) && 0 <= off[b] <= |f|
    {
      var i :| 0 <= i < |order| && order[i] == b;
      assert PlacedAt(f, g, fl, off, order, i);
      LaidInside(f, g, fl, off, b);
    }
    var n := LayoutSimulates(f, g, rank', fl, off, root, p, r);
    RunIgnoresRank(g, rank, rank', p, root, r);
    HaltsOnce(f, p, At(0, r), n, |f|);
  }

  lemma WalkOrderClosed(g: Graph, rank: map<int, nat>, root: int)
    requires Ranked(g, rank) && root in rank
    ensures var s := WalkOrder(g, rank, root);
            ClosedSet(g, Elems(s)) && forall i :: 0 <= i < |s| ==> s[i] in rank
  {
    WholeWalk(g, rank, root, true);
    var s := WalkOrder(g, rank, root);
    forall i | 0 <= i < |s| ensures s[i] in rank { assert s[i] in Elems(s); }
  }

  /** A run that has stopped stays as it is. */
  lemma HaltsOnce(f: seq<Insn>, p: Packet, c: Config, m: nat, n: nat)
    requires !Steps(f, p, c, m).At? && !Steps(f, p, c, n).At?
    ensures Steps(f, p, c, m) == Steps(f, p, c, n)
  {
    hide Step;
    if m <= n {
      StepsCompose(f, p, c, m, n - m);
    } else {
      StepsCompose(f, p, c, n, m - n);
    }
  }
}
