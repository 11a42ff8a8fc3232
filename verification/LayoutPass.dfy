/**
 The layout pass: count_stmts, convert_code_r and icode_to_fcode of
 deps/libpcap/optimize.c.

 Blocks are written from the end of the array towards its start, in the order in which a
 depth-first walk finishes them.  A branch that does not fit its 8-bit field marks its
 block and fails the pass; the next pass gives that block an extra slot for a long jump.
 */
module LayoutPass {
  import opened Basics
  import opened Machine
  import opened Flow
  import opened Order
  import opened Layout

  // ----- sums -----

  lemma SumPrefix(s: seq<int>, i: nat, size: int -> nat)
    requires i <= |s|
    ensures Sum(s[..i], size) <= Sum(s, size)
  {
    SumAppend(s[..i], s[i..], size);
    assert s == s[..i] + s[i..];
  }

  lemma SumNext(s: seq<int>, i: nat, size: int -> nat)
    requires i < |s|
    ensures Sum(s[..i + 1], size) == Sum(s[..i], size) + size(s[i])
  {
    assert s[..i + 1][..i] == s[..i];
  }

  lemma {:induction false} SumMonotone(s: seq<int>, size: int -> nat, size': int -> nat)
    requires forall i :: 0 <= i < |s| ==> size(s[i]) <= size'(s[i])
    ensures Sum(s, size) <= Sum(s, size')
  {
    if s != [] {
      SumMonotone(s[..|s| - 1], size, size');
    }
  }

  lemma SumBetween(s: seq<int>, j: nat, i: nat, size: int -> nat)
    requires j <= i <= |s|
    ensures Sum(s[..i], size) == Sum(s[..j], size) + Sum(s[j..i], size)
  {
    assert s[..i] == s[..j] + s[j..i];
    SumAppend(s[..j], s[j..i], size);
  }

  // ----- blocks in place -----

  ghost predicate Shaped(g: Graph, fl: Flags, off: seq<int>) { |off| == |fl.jt| == |fl.jf| == |g| }

  /** The i-th finished block lies right before the blocks finished earlier. */
  ghost predicate PlacedAt(f: seq<Insn>, g: Graph, fl: Flags, off: seq<int>, placed: seq<int>, i: nat)
    requires Shaped(g, fl, off) && i < |placed|
  {
    && 0 <= placed[i] < |g|
    && off[placed[i]] == |f| - Sum(placed[..i + 1], Sizes(g, fl))
    && Laid(f, g, fl, off, placed[i])
  }

  ghost predicate AllPlaced(f: seq<Insn>, g: Graph, fl: Flags, off: seq<int>, placed: seq<int>) {
    && Shaped(g, fl, off)
    && forall i :: 0 <= i < |placed| ==> PlacedAt(f, g, fl, off, placed, i)
  }

  /** Code further up does not change when slots below it are written. */
  lemma LaidFrame(f: seq<Insn>, f': seq<Insn>, g: Graph, fl: Flags, off: seq<int>, off': seq<int>, b: int, low: int)
    requires Shaped(g, fl, off) && Shaped(g, fl, off') && 0 <= b < |g| && Laid(f, g, fl, off, b)
    requires |f'| == |f| && 0 <= low <= off[b] && f'[low..] == f[low..]
    requires off'[b] == off[b] && (!Leaf(g[b]) ==> off'[g[b].jt] == off[g[b].jt] && off'[g[b].jf] == off[g[b].jf])
    ensures Laid(f', g, fl, off', b)
  {
    hide Live, Leaf, LongJump, Plain;
    SameBelow(f, f', low);
  }

  lemma SameBelow(f: seq<Insn>, f': seq<Insn>, low: nat)
    requires |f'| == |f| && low <= |f| && f'[low..] == f[low..]
    ensures forall i :: low <= i < |f| ==> f'[i] == f[i]
  {
    assert forall i :: low <= i < |f| ==> f'[i] == f'[low..][i - low] == f[low..][i - low] == f[i];
  }

  lemma PlaceOne(f: seq<Insn>, f': seq<Insn>, g: Graph, fl: Flags, off: seq<int>, placed: seq<int>, p: int, low: nat)
    requires AllPlaced(f, g, fl, off, placed) && Finished(g, placed)
    requires 0 <= p < |g| && p !in placed
    requires |f'| == |f| && low == |f| - Sum(placed, Sizes(g, fl)) && f'[low..] == f[low..]
    requires var off' := off[p := low - SizeAt(g, fl, p)]; Laid(f', g, fl, off', p)
    ensures AllPlaced(f', g, fl, off[p := low - SizeAt(g, fl, p)], placed + [p])
  {
    hide Laid, SizeAt, Finished, Sum, PlacedAt;
    var off', placed' := off[p := low - SizeAt(g, fl, p)], placed + [p];
    forall i | 0 <= i < |placed'|
      ensures PlacedAt(f', g, fl, off', placed', i)
    {
      if i < |placed| {
        StaysPlaced(f, f', g, fl, off, placed, p, low, i);
      } else {
        LastPlaced(f', g, fl, off, placed, p, low);
      }
    }
  }

  lemma StaysPlaced(f: seq<Insn>, f': seq<Insn>, g: Graph, fl: Flags, off: seq<int>, placed: seq<int>, p: int,
      low: nat, i: nat)
    requires AllPlaced(f, g, fl, off, placed) && Finished(g, placed) && i < |placed|
    requires 0 <= p < |g| && p !in placed
    requires |f'| == |f| && low == |f| - Sum(placed, Sizes(g, fl)) && f'[low..] == f[low..]
    ensures PlacedAt(f', g, fl, off[p := low - SizeAt(g, fl, p)], placed + [p], i)
  {
    hide Laid, SizeAt, Sum, Distinct;
    var off' := off[p := low - SizeAt(g, fl, p)];
    assert PlacedAt(f, g, fl, off, placed, i);
    assert (placed + [p])[..i + 1] == placed[..i + 1];
    SumPrefix(placed, i + 1, Sizes(g, fl));
    var b := placed[i];
    assert SuccsIn(g, b, Elems(placed[..i]));
    assert !Leaf(g[b]) ==> g[b].jt in placed && g[b].jf in placed;
    LaidFrame(f, f', g, fl, off, off', b, low);
  }

  lemma LastPlaced(f': seq<Insn>, g: Graph, fl: Flags, off: seq<int>, placed: seq<int>, p: int, low: nat)
    requires Shaped(g, fl, off) && 0 <= p < |g| && low == |f'| - Sum(placed, Sizes(g, fl))
    requires Laid(f', g, fl, off[p := low - SizeAt(g, fl, p)], p)
    ensures PlacedAt(f', g, fl, off[p := low - SizeAt(g, fl, p)], placed + [p], |placed|)
  {
    hide Laid, Sum;
    var placed' := placed + [p];
    assert placed'[..|placed| + 1] == placed';
    SumElems(placed, p, Sizes(g, fl));
  }

  // ----- long branches -----

  ghost function Pos(s: seq<int>, b: int): (i: nat)
    requires b in s
    ensures i < |s| && s[i] == b
  {
    var i :| 0 <= i < |s| && s[i] == b; i
  }

  /** The distance of a branch, from the sizes of the blocks in between. */
  ghost function Distance(g: Graph, fl: Flags, order: seq<int>, b: int, t: int): int
    requires |fl.jt| == |fl.jf| == |g| && b in order && t in order && 0 <= b < |g|
  {
    var size := Sizes(g, fl);
    Sum(order[..Pos(order, b) + 1], size) - Sum(order[..Pos(order, t) + 1], size) - Slen(g[b]) - 1
  }

  ghost predicate Grown(fl: Flags, fl': Flags) {
    && |fl'.jt| == |fl.jt| && |fl'.jf| == |fl.jf|
    && (forall b :: 0 <= b < |fl.jt| && fl.jt[b] ==> fl'.jt[b])
    && (forall b :: 0 <= b < |fl.jf| && fl.jf[b] ==> fl'.jf[b])
  }

  lemma SizesGrow(g: Graph, fl: Flags, fl': Flags, s: seq<int>)
    requires |fl.jt| == |fl.jf| == |g| && Grown(fl, fl')
    ensures forall k :: 0 <= k < |s| ==> Sizes(g, fl)(s[k]) <= Sizes(g, fl')(s[k])
  {
  }

  /** Branch distances only grow from pass to pass. */
  lemma DistanceGrows(g: Graph, fl: Flags, fl': Flags, order: seq<int>, b: int, t: int)
    requires |fl.jt| == |fl.jf| == |g| && b in order && t in order && 0 <= b < |g|
    requires Grown(fl, fl') && Pos(order, t) <= Pos(order, b)
    ensures Distance(g, fl, order, b, t) <= Distance(g, fl', order, b, t)
  {
    SizesGrow(g, fl, fl', order);
    hide Sizes, Grown;
    SumGrows(order, Pos(order, t) + 1, Pos(order, b) + 1, Sizes(g, fl), Sizes(g, fl'));
  }

  lemma SumGrows(s: seq<int>, j: nat, i: nat, size: int -> nat, size': int -> nat)
    requires j <= i <= |s|
    requires forall k :: 0 <= k < |s| ==> size(s[k]) <= size'(s[k])
    ensures Sum(s[..i], size) - Sum(s[..j], size) <= Sum(s[..i], size') - Sum(s[..j], size')
  {
    hide Sum;
    SumBetween(s, j, i, size);
    SumBetween(s, j, i, size');
    forall k | 0 <= k < i - j
      ensures size(s[j..i][k]) <= size'(s[j..i][k])
    {
      assert s[j..i][k] == s[j + k];
    }
    SumMonotone(s[j..i], size, size');
  }

  lemma PosBelow(g: Graph, order: seq<int>, b: int, t: int)
    requires Finished(g, order) && b in order && 0 <= b < |g| && !Leaf(g[b]) && (t == g[b].jt || t == g[b].jf)
    ensures t in order && Pos(order, t) < Pos(order, b)
  {
    var i := Pos(order, b);
    assert SuccsIn(g, order[i], Elems(order[..i]));
    var j :| 0 <= j < i && order[j] == t;
  }

  /** Every extra slot is there because the branch needs it. */
  ghost predicate Justified(g: Graph, fl: Flags, order: seq<int>) {
    && |fl.jt| == |fl.jf| == |g| && Finished(g, order)
    && forall b :: b in order ==> JustifiedAt(g, fl, order, b)
  }

  ghost predicate JustifiedAt(g: Graph, fl: Flags, order: seq<int>, b: int)
    requires |fl.jt| == |fl.jf| == |g|
  {
    && b in order && 0 <= b < |g|
    && (fl.jt[b] ==> !Leaf(g[b]) && g[b].jt in order && Distance(g, fl, order, b, g[b].jt) >= 256)
    && (fl.jf[b] ==> !Leaf(g[b]) && g[b].jf in order && Distance(g, fl, order, b, g[b].jf) >= 256)
  }

  /** A failed pass has marked one branch that was too long. */
  ghost predicate Marked(g: Graph, fl: Flags, fl': Flags, order: seq<int>, b: int, jt: bool)
    requires |fl.jt| == |fl.jf| == |g|
  {
    && b in order && 0 <= b < |g| && !Leaf(g[b])
    && (if jt then
          !fl.jt[b] && fl' == fl.(jt := fl.jt[b := true]) && g[b].jt in order
            && Distance(g, fl, order, b, g[b].jt) >= 256
        else
          !fl.jf[b] && fl' == fl.(jf := fl.jf[b := true]) && g[b].jf in order
            && Distance(g, fl, order, b, g[b].jf) >= 256)
  }

  lemma MarkedJustified(g: Graph, fl: Flags, fl': Flags, order: seq<int>, b: int, jt: bool)
    requires Justified(g, fl, order) && Marked(g, fl, fl', order, b, jt)
    ensures Justified(g, fl', order)
  {
    hide Distance, Finished;
    assert Grown(fl, fl');
    forall x | x in order
      ensures JustifiedAt(g, fl', order, x)
    {
      assert JustifiedAt(g, fl, order, x);
      if !Leaf(g[x]) {
        PosBelow(g, order, x, g[x].jt);
        PosBelow(g, order, x, g[x].jf);
        DistanceGrows(g, fl, fl', order, x, g[x].jt);
        DistanceGrows(g, fl, fl', order, x, g[x].jf);
      }
    }
  }

  /** How many of the blocks have a flag that is not set. */
  ghost function Unset(order: seq<int>, flags: seq<bool>): nat { Sum(order, Missing(flags)) }

  ghost function Missing(flags: seq<bool>): int -> nat { b => if 0 <= b < |flags| then Count(!flags[b]) else 0 }

  lemma {:induction false} UnsetBound(order: seq<int>, flags: seq<bool>)
    ensures Unset(order, flags) <= |order|
  {
    if order != [] { UnsetBound(order[..|order| - 1], flags); }
  }

  lemma UnsetUpdate(order: seq<int>, flags: seq<bool>, b: int)
    requires Distinct(order) && b in order && 0 <= b < |flags| && !flags[b]
    ensures Unset(order, flags) == Unset(order, flags[b := true]) + 1
  {
    var k := Pos(order, b);
    var rest, m, m' := order[..k] + order[k + 1..], Missing(flags), Missing(flags[b := true]);
    Removed(order, k);
    SumRemoved(order, k, m);
    SumRemoved(order, k, m');
    forall i | 0 <= i < |rest| ensures m(rest[i]) == m'(rest[i]) { assert rest[i] in Elems(rest); }
    SumMonotone(rest, m, m');
    SumMonotone(rest, m', m);
  }

  // ----- the pass -----

  lemma {:induction false} LiveAppend(ss: seq<Stmt>, tt: seq<Stmt>)
    ensures Live(ss + tt) == Live(ss) + Live(tt)
  {
    hide Live;
    if ss == [] {
      assert ss + tt == tt;
      LiveNothing();
      assert [] + Live(tt) == Live(tt);
    } else {
      assert (ss + tt)[1..] == ss[1..] + tt && (ss + tt)[0] == ss[0];
      LiveAppend(ss[1..], tt);
      LiveFirst(ss);
      LiveFirst(ss + tt);
      var x := if ss[0].code == NOP then [] else [ss[0]];
      assert x + (Live(ss[1..]) + Live(tt)) == x + Live(ss[1..]) + Live(tt);
    }
  }

  lemma LiveFirst(ss: seq<Stmt>)
    requires ss != []
    ensures Live(ss) == (if ss[0].code == NOP then [] else [ss[0]]) + Live(ss[1..])
  {
  }

  /** Slots that a block takes when both its branches are long. */
  ghost function MaxSizes(g: Graph): int -> nat { b => if 0 <= b < |g| then Slen(g[b]) + 3 else 0 }

  class Converter {
    const g: Graph
    const root: int
    ghost const rank: map<int, nat>
    var mark: seq<int>
    var curMark: int
    var fl: Flags
    var offset: seq<int>
    var fp: array<Insn>
    var ftail: int
    ghost var placed: seq<int>

    ghost predicate Static()
      reads this`fl, this`offset
    {
      Ranked(g, rank) && root in rank && Shaped(g, fl, offset)
    }

    /** The blocks marked now are those of a given set. */
    ghost predicate MarksAre(seen: set<int>)
      reads this`mark, this`curMark
    {
      && |mark| == |g|
      && forall b :: 0 <= b < |g| ==> mark[b] <= curMark && (mark[b] == curMark <==> b in seen)
    }

    /** Fresh blocks have no marks and no long jumps. */
    constructor (g: Graph, root: int, ghost rank: map<int, nat>)
      requires Ranked(g, rank) && root in rank
      ensures Static() && (exists seen :: MarksAre(seen)) && this.g == g && this.root == root && this.rank == rank
      ensures forall b :: 0 <= b < |g| ==> !fl.jt[b] && !fl.jf[b]
    {
      this.g := g;
      this.root := root;
      this.rank := rank;
      mark := seq(|g|, _ => 0);
      curMark := 0;
      fl := Flags(seq(|g|, _ => false), seq(|g|, _ => false));
      offset := seq(|g|, _ => 0);
      fp := new Insn[0];
      ftail := 0;
      placed := [];
      new;
      ghost var all := Elems(seq(|g|, i => i));
      forall b | 0 <= b < |g| ensures b in all { assert seq(|g|, i => i)[b] == b; }
      assert MarksAre(all);
    }

    method UnmarkAll(ghost seen: set<int>)
      requires MarksAre(seen)
      modifies this`curMark
      ensures MarksAre({})
    {
      curMark := curMark + 1;
    }

    /** Slots needed for the blocks that b leads to and that are not yet marked. */
    method CountStmts(b: int, ghost seen: set<int>) returns (n: nat)
      requires Static() && (b < 0 || b in rank) && MarksAre(seen)
      modifies this`mark
      ensures n == Sum(Walk(g, rank, b, seen, false), Sizes(g, fl))
      ensures MarksAre(seen + Elems(Walk(g, rank, b, seen, false)))
      decreases if b < 0 then 0 else rank[b] + 1
    {
      hide Live, Walk, Visit, Sum, Elems, Ranked, Sizes;
      RankedIndices(g, rank);
      if b < 0 || mark[b] == curMark {
        WalkNothing(g, rank, b, seen, false, Sizes(g, fl));
        return 0;
      }
      WalkNode(g, rank, b, seen, false, Sizes(g, fl));
      SizesUnfold(g, fl, b);
      mark := mark[b := curMark];
      ghost var seen1 := seen + {b} + Elems(Walk(g, rank, g[b].jt, seen + {b}, false));
      var n0 := CountStmts(g[b].jt, seen + {b});
      var n1 := CountStmts(g[b].jf, seen1);
      n := |Live(g[b].stmts)| + n0 + n1 + 1 + Count(fl.jt[b]) + Count(fl.jf[b]);
    }

    /** Write the statements of a block from slot `dst` on, skipping deleted ones. */
    method WriteStmts(ss: seq<Stmt>, o: nat) returns (dst: nat)
      requires o + |Live(ss)| <= fp.Length
      modifies fp
      ensures dst == o + |Live(ss)|
      ensures forall k :: 0 <= k < |Live(ss)| ==> fp[o + k] == Plain(Live(ss)[k])
      ensures forall j :: 0 <= j < fp.Length && !(o <= j < dst) ==> fp[j] == old(fp[j])
    {
      hide Live;
      dst := o;
      var i := 0;
      LiveNothing();
      while i < |ss|
        invariant 0 <= i <= |ss| && ss[..0] == []
        invariant dst == o + |Live(ss[..i])| <= o + |Live(ss)|
        invariant forall k :: 0 <= k < |Live(ss[..i])| ==> fp[o + k] == Plain(Live(ss[..i])[k])
        invariant forall j :: 0 <= j < fp.Length && !(o <= j < dst) ==> fp[j] == old(fp[j])
      {
        LiveNext(ss, i);
        if ss[i].code != NOP {
          fp[dst] := Plain(ss[i]);
          dst := dst + 1;
        }
        i := i + 1;
      }
      assert ss[..i] == ss;
    }

    /** The branch of block b at slot `at` did not fit and has just been marked. */
    ghost predicate TooLong(was: Flags, jt: bool, b: int, at: int)
      reads this`fl, this`offset
      requires 0 <= b < |g| && |was.jt| == |was.jf| == |g|
    {
      var t := if jt then g[b].jt else g[b].jf;
      && 0 <= t < |offset| && offset[t] - at - 1 >= 256
      && (if jt then !was.jt[b] && fl == was.(jt := was.jt[b := true])
          else !was.jf[b] && fl == was.(jf := was.jf[b := true]))
    }

    /** Write the branch of block b at slot `at`, and the long jumps it needs behind it. */
    method WriteBranch(b: int, at: nat) returns (ok: bool)
      requires 0 <= b < |g| && Shaped(g, fl, offset)
      requires at + 1 + Count(fl.jt[b]) + Count(fl.jf[b]) <= fp.Length < WORD_SIZE
      requires !Leaf(g[b]) ==>
        && 0 <= g[b].jt < |g| && 0 <= g[b].jf < |g|
        && at < offset[g[b].jt] < fp.Length && at < offset[g[b].jf] < fp.Length
      modifies this`fl, fp
      ensures Shaped(g, fl, offset)
      ensures ok ==> fl == old(fl)
      ensures ok ==> fp[at].code == g[b].br.code && fp[at].k == g[b].br.k
      ensures ok && !Leaf(g[b]) ==>
        && Goes(fp[..], at, fp[at].jt, offset[g[b].jt], 0, fl.jt[b])
        && Goes(fp[..], at, fp[at].jf, offset[g[b].jf], Count(offset[g[b].jt] - at - 1 >= 256), fl.jf[b])
      ensures ok ==>
        forall j :: 0 <= j < fp.Length && !(at <= j <= at + Count(fl.jt[b]) + Count(fl.jf[b])) ==> fp[j] == old(fp[j])
      ensures !ok ==> !Leaf(g[b]) && (TooLong(old(fl), true, b, at) || TooLong(old(fl), false, b, at))
    {
      fp[at] := Insn(g[b].br.code, 0, 0, g[b].br.k);
      if Leaf(g[b]) { return true; }
      var extrajmps := 0;
      var off := offset[g[b].jt] - at - 1;
      if off >= 256 {
        if !fl.jt[b] {
          fl := fl.(jt := fl.jt[b := true]);
          return false;
        }
        fp[at] := fp[at].(jt := extrajmps);
        extrajmps := extrajmps + 1;
        fp[at + extrajmps] := LongJump(off - extrajmps);
      } else {
        fp[at] := fp[at].(jt := off);
      }
      off := offset[g[b].jf] - at - 1;
      if off >= 256 {
        if !fl.jf[b] {
          fl := fl.(jf := fl.jf[b := true]);
          return false;
        }
        fp[at] := fp[at].(jf := extrajmps);
        extrajmps := extrajmps + 1;
        fp[at + extrajmps] := LongJump(off - extrajmps);
      } else {
        fp[at] := fp[at].(jf := off);
      }
      return true;
    }

    /** Write the code of block b at its offset. */
    method Emit(b: int) returns (ok: bool)
      requires 0 <= b < |g| && Shaped(g, fl, offset)
      requires 0 <= offset[b] && offset[b] + SizeAt(g, fl, b) <= fp.Length < WORD_SIZE
      requires !Leaf(g[b]) ==>
        && 0 <= g[b].jt < |g| && 0 <= g[b].jf < |g|
        && offset[b] + SizeAt(g, fl, b) <= offset[g[b].jt] < fp.Length
        && offset[b] + SizeAt(g, fl, b) <= offset[g[b].jf] < fp.Length
      modifies this`fl, fp
      ensures Shaped(g, fl, offset)
      ensures ok ==> fl == old(fl) && Laid(fp[..], g, fl, offset, b)
      ensures ok ==> forall j :: offset[b] + SizeAt(g, fl, b) <= j < fp.Length ==> fp[j] == old(fp[j])
      ensures var at := offset[b] + Slen(g[b]);
              !ok ==> !Leaf(g[b]) && (TooLong(old(fl), true, b, at) || TooLong(old(fl), false, b, at))
    {
      hide Live, Goes, Laid, TooLong;
      var at := WriteStmts(g[b].stmts, offset[b]);
      ghost var f1 := fp[..];
      ok := WriteBranch(b, at);
      if ok {
        BlockLaid(f1, fp[..], g, fl, offset, b);
      }
    }

    /** The state of a pass that has placed some blocks. */
    ghost predicate InPass(order: seq<int>)
      reads this`fl, this`offset, this`fp, this`ftail, this`placed, fp
    {
      && Shaped(g, fl, offset)
      && fp.Length == Sum(order, Sizes(g, fl)) < 0x8000_0000
      && ftail == fp.Length - Sum(placed, Sizes(g, fl))
      && Finished(g, placed)
      && AllPlaced(fp[..], g, fl, offset, placed)
    }

    lemma InPassShaped(order: seq<int>)
      requires InPass(order)
      ensures Shaped(g, fl, offset)
    {
    }

    /** Write one block whose successors are in place. */
    method WriteBlock(b: int, ghost order: seq<int>, ghost rest: seq<int>) returns (ok: bool)
      requires 0 <= b < |g| && InPass(order) && Finished(g, order) && order == placed + [b] + rest
      modifies this`fl, this`offset, this`ftail, this`placed, fp
      ensures ok ==> InPass(order) && fl == old(fl) && placed == old(placed) + [b]
      ensures !ok ==> Marked(g, old(fl), fl, order, b, true) || Marked(g, old(fl), fl, order, b, false)
      ensures Shaped(g, fl, offset) && fp == old(fp)
    {
      hide Live, Sum, Finished, AllPlaced, Goes, Laid, Sizes, Distance, Marked, TooLong;
      ghost var size, was := Sizes(g, fl), fl;
      ghost var low, f := ftail, fp[..];
      SlotsLeft(g, fl, placed, order, rest, b);
      if !Leaf(g[b]) {
        SuccessorPlaced(f, g, fl, offset, placed, order, rest, b, g[b].jt);
        SuccessorPlaced(f, g, fl, offset, placed, order, rest, b, g[b].jf);
        NotItself(g, order, placed, rest, b);
      }
      ftail := ftail - (|Live(g[b].stmts)| + 1 + Count(fl.jt[b]) + Count(fl.jf[b]));
      offset := offset[b := ftail];
      ok := Emit(b);
      if ok {
        PlaceWritten(f, fp[..], g, fl, old(offset), placed, order, rest, b, low);
        SumElems(placed, b, size);
        SizesUnfold(g, fl, b);
        placed := placed + [b];
      } else {
        ghost var at := offset[b] + Slen(g[b]);
        BranchMarked(was, order, b, at, TooLong(was, true, b, at));
      }
    }

    lemma BranchMarked(was: Flags, order: seq<int>, b: int, at: int, jt: bool)
      requires 0 <= b < |g| && |was.jt| == |was.jf| == |g| && !Leaf(g[b]) && b in order && Shaped(g, fl, offset)
      requires g[b].jt in order && g[b].jf in order && 0 <= g[b].jt < |g| && 0 <= g[b].jf < |g|
      requires Distance(g, was, order, b, g[b].jt) == offset[g[b].jt] - at - 1
      requires Distance(g, was, order, b, g[b].jf) == offset[g[b].jf] - at - 1
      requires TooLong(was, jt, b, at)
      ensures Marked(g, was, fl, order, b, jt)
    {
      hide Distance;
    }

    /** Lay out the blocks that b leads to and that are not yet marked, and then b itself. */
    method ConvertCode(b: int, ghost order: seq<int>, ghost rest: seq<int>, ghost path: set<int>)
      returns (ok: bool, ghost x: int, ghost side: bool, ghost seen: set<int>)
      requires Ranked(g, rank) && (b < 0 || (b in rank && OnPath(rank, path, b)))
      requires InPass(order) && Finished(g, order) && MarksAre(Elems(placed) + path)
      requires order == placed + Walk(g, rank, b, Elems(placed) + path, true) + rest
      modifies this`mark, this`fl, this`offset, this`ftail, this`placed, fp
      ensures ok ==> InPass(order) && fl == old(fl) && MarksAre(Elems(placed) + path)
      ensures ok ==> placed == old(placed) + Walk(g, rank, b, Elems(old(placed)) + path, true)
      ensures !ok ==> Marked(g, old(fl), fl, order, x, side)
      ensures MarksAre(seen) && Shaped(g, fl, offset)
      decreases if b < 0 then 0 else rank[b] + 1
    {
      hide Live, Walk, Visit, Sum, Elems, Ranked, Sizes, Finished, InPass, Marked, OnPath;
      ok, x, side, seen := true, 0, true, Elems(placed) + path;
      InPassShaped(order);
      RankedIndices(g, rank);
      if b < 0 || mark[b] == curMark {
        WalkNothing(g, rank, b, seen, true, Sizes(g, fl));
        assert placed + [] == placed;
        return;
      }
      ghost var first, second := WalkParts(g, rank, b, placed, path, true);
      assert order == placed + first + (second + [b] + rest) == placed + first + second + ([b] + rest);
      ghost var path1 := path + {b};
      mark := mark[b := curMark];
      ok, x, side, seen := ConvertCode(g[b].jf, order, second + [b] + rest, path1);
      if !ok { return; }
      ok, x, side, seen := ConvertCode(g[b].jt, order, [b] + rest, path1);
      if !ok { return; }
      ghost var last := placed;
      ok := WriteBlock(b, order, rest);
      x, side := b, Marked(g, old(fl), fl, order, b, true);
      SumElems(last, b, _ => 0);
    }

    /** Count the slots, allocate them, and try to lay out the graph. */
    method OnePass(ghost order: seq<int>, ghost marks: set<int>)
        returns (ok: bool, ghost x: int, ghost side: bool, ghost seen: set<int>)
      requires Ranked(g, rank) && root in rank && Shaped(g, fl, offset) && MarksAre(marks)
      requires order == WalkOrder(g, rank, root) && Finished(g, order)
      requires Sum(order, MaxSizes(g)) < 0x8000_0000
      modifies this
      ensures ok ==> InPass(order) && fl == old(fl) && placed == order
      ensures !ok ==> Marked(g, old(fl), fl, order, x, side)
      ensures MarksAre(seen) && Shaped(g, fl, offset)
    {
      hide Live, Walk, Visit, Sum, Elems, Ranked, Sizes, Finished, Marked, OnPath, Child, MaxSizes, AllPlaced;
      UnmarkAll(marks);
      var n := CountStmts(root, {});
      CountedSlots(g, rank, root, fl);
      fp := new Insn[n](_ => Insn(0, 0, 0, 0));
      ftail, placed := n, [];
      UnmarkAll({} + Elems(Walk(g, rank, root, {}, false)));
      NothingPlaced(fp[..], g, fl, offset);
      RootWalk(g, rank, root);
      assert Elems(placed) + {} == {};
      assert order == placed + Walk(g, rank, root, {}, true) + [];
      ok, x, side, seen := ConvertCode(root, order, [], {});
    }

    /** Repeat the pass until every branch fits. */
    method IcodeToFcode() returns (ghost order: seq<int>, passes: nat)
      requires Ranked(g, rank) && root in rank && Shaped(g, fl, offset) && exists seen :: MarksAre(seen)
      requires forall b :: 0 <= b < |g| ==> !fl.jt[b] && !fl.jf[b]
      requires Sum(WalkOrder(g, rank, root), MaxSizes(g)) < 0x8000_0000
      modifies this
      ensures order == WalkOrder(g, rank, root)
      ensures InPass(order) && placed == order && ftail == 0 && 0 <= root < |offset| && offset[root] == 0
      ensures Justified(g, fl, order)
      ensures 1 <= passes <= 2 * |order| + 1
    {
      hide Live, Walk, Visit, Sum, Elems, Ranked, Sizes, Marked, MaxSizes, AllPlaced, Unset, Justified, WalkOrder,
        Finished, InPass;
      order := WalkOrder(g, rank, root);
      WalkOrderGood(g, rank, root);
      UnsetBound(order, fl.jt);
      UnsetBound(order, fl.jf);
      NothingMarked(g, fl, order);
      passes := 0;
      ghost var seen :| MarksAre(seen);
      while true
        invariant Shaped(g, fl, offset) && MarksAre(seen) && Justified(g, fl, order)
        invariant passes + Unset(order, fl.jt) + Unset(order, fl.jf) <= 2 * |order|
        decreases Unset(order, fl.jt) + Unset(order, fl.jf)
      {
        passes := passes + 1;
        var ok;
        ghost var x, side;
        ghost var was := fl;
        ok, x, side, seen := OnePass(order, seen);
        if ok {
          PassDone(order);
          return;
        }
        MarkedJustified(g, was, fl, order, x, side);
        MarkedFewer(g, was, fl, order, x, side);
      }
    }

    lemma PassDone(order: seq<int>)
      requires InPass(order) && placed == order && |order| > 0 && order[|order| - 1] == root
      ensures ftail == 0 && 0 <= root < |offset| && offset[root] == 0
    {
      RootFirst(fp[..], g, fl, offset, order, root);
    }
  }

  lemma WalkOrderGood(g: Graph, rank: map<int, nat>, root: int)
    requires Ranked(g, rank) && root in rank
    ensures var s := WalkOrder(g, rank, root); Finished(g, s) && |s| > 0 && s[|s| - 1] == root
  {
    WholeWalk(g, rank, root, true);
  }

  lemma RootWalk(g: Graph, rank: map<int, nat>, root: int)
    requires Ranked(g, rank) && root in rank
    ensures Walk(g, rank, root, {}, true) == WalkOrder(g, rank, root) && OnPath(rank, {}, root)
  {
  }

  lemma NothingMarked(g: Graph, fl: Flags, order: seq<int>)
    requires |fl.jt| == |fl.jf| == |g| && Finished(g, order)
    requires forall b :: 0 <= b < |g| ==> !fl.jt[b] && !fl.jf[b]
    ensures Justified(g, fl, order)
  {
    forall b | b in order
      ensures JustifiedAt(g, fl, order, b)
    {
      var i :| 0 <= i < |order| && order[i] == b;
    }
  }

  lemma NothingPlaced(f: seq<Insn>, g: Graph, fl: Flags, off: seq<int>)
    requires Shaped(g, fl, off)
    ensures AllPlaced(f, g, fl, off, []) && Finished(g, []) && Sum([], Sizes(g, fl)) == 0 && Elems([]) == {}
  {
  }

  /** The slots counted are the slots the pass fills: both walks visit the same blocks. */
  lemma CountedSlots(g: Graph, rank: map<int, nat>, root: int, fl: Flags)
    requires Ranked(g, rank) && root in rank && |fl.jt| == |fl.jf| == |g|
    requires Sum(WalkOrder(g, rank, root), MaxSizes(g)) < 0x8000_0000
    ensures Sum(Walk(g, rank, root, {}, false), Sizes(g, fl))
      == Sum(WalkOrder(g, rank, root), Sizes(g, fl)) < 0x8000_0000
  {
    hide Visit, Sum, Live, Elems, Ranked, Sizes, MaxSizes, Distinct;
    RankedIndices(g, rank);
    WholeWalk(g, rank, root, true);
    WholeWalk(g, rank, root, false);
    WalksAgree(g, rank, root);
    SumPermuted(Visit(g, rank, root, {}, false), Visit(g, rank, root, {}, true), Sizes(g, fl));
    MaxSizesBound(g, fl, Visit(g, rank, root, {}, true));
  }

  lemma MaxSizesBound(g: Graph, fl: Flags, order: seq<int>)
    requires |fl.jt| == |fl.jf| == |g|
    ensures Sum(order, Sizes(g, fl)) <= Sum(order, MaxSizes(g))
  {
    hide Live;
    SumMonotone(order, Sizes(g, fl), MaxSizes(g));
  }

  lemma RootFirst(f: seq<Insn>, g: Graph, fl: Flags, off: seq<int>, order: seq<int>, root: int)
    requires AllPlaced(f, g, fl, off, order) && |f| == Sum(order, Sizes(g, fl)) && |order| > 0
    requires order[|order| - 1] == root
    ensures 0 <= root < |g| && off[root] == 0
  {
    hide Sum, Laid, Sizes;
    assert PlacedAt(f, g, fl, off, order, |order| - 1);
    assert order[..|order|] == order;
  }

  lemma MarkedFewer(g: Graph, fl: Flags, fl': Flags, order: seq<int>, b: int, jt: bool)
    requires |fl.jt| == |fl.jf| == |g| && Marked(g, fl, fl', order, b, jt) && Finished(g, order)
    ensures Unset(order, fl'.jt) + Unset(order, fl'.jf) == Unset(order, fl.jt) + Unset(order, fl.jf) - 1
  {
    hide Distance, Unset;
    if jt {
      UnsetUpdate(order, fl.jt, b);
    } else {
      UnsetUpdate(order, fl.jf, b);
    }
  }

  lemma NotItself(g: Graph, order: seq<int>, placed: seq<int>, rest: seq<int>, b: int)
    requires Finished(g, order) && order == placed + [b] + rest && 0 <= b < |g| && !Leaf(g[b])
    ensures g[b].jt != b && g[b].jf != b
  {
    var i := SuccessorIndex(g, placed, order, rest, b, g[b].jt);
    var j := SuccessorIndex(g, placed, order, rest, b, g[b].jf);
  }

  /** Statements and branch make a block. */
  lemma BlockLaid(f1: seq<Insn>, f: seq<Insn>, g: Graph, fl: Flags, off: seq<int>, b: int)
    requires Shaped(g, fl, off) && 0 <= b < |g| && |f1| == |f|
    requires 0 <= off[b] && off[b] + SizeAt(g, fl, b) <= |f|
    requires forall k :: 0 <= k < |Live(g[b].stmts)| ==> f1[off[b] + k] == Plain(Live(g[b].stmts)[k])
    requires forall j :: 0 <= j < off[b] + Slen(g[b]) ==> f[j] == f1[j]
    requires var at := off[b] + Slen(g[b]);
      && f[at].code == g[b].br.code && f[at].k == g[b].br.k
      && (!Leaf(g[b]) ==>
            && 0 <= g[b].jt < |g| && 0 <= g[b].jf < |g|
            && Goes(f, at, f[at].jt, off[g[b].jt], 0, fl.jt[b])
            && Goes(f, at, f[at].jf, off[g[b].jf], Count(off[g[b].jt] - at - 1 >= 256), fl.jf[b]))
    ensures Laid(f, g, fl, off, b)
  {
    hide Live, Goes;
    var live := Live(g[b].stmts);
    forall k | 0 <= k < |live|
      ensures f[off[b] + k] == Plain(live[k])
    {
      assert f[off[b] + k] == f1[off[b] + k];
    }
  }

  lemma PlaceWritten(f: seq<Insn>, f': seq<Insn>, g: Graph, fl: Flags, off: seq<int>, placed: seq<int>,
      order: seq<int>, rest: seq<int>, b: int, low: nat)
    requires AllPlaced(f, g, fl, off, placed) && Finished(g, placed) && Finished(g, order)
    requires order == placed + [b] + rest && 0 <= b < |g|
    requires |f'| == |f| && low == |f| - Sum(placed, Sizes(g, fl))
    requires forall j :: low <= j < |f| ==> f'[j] == f[j]
    requires Laid(f', g, fl, off[b := low - SizeAt(g, fl, b)], b)
    ensures AllPlaced(f', g, fl, off[b := low - SizeAt(g, fl, b)], placed + [b])
    ensures Finished(g, placed + [b])
  {
    hide Sum, Laid, Live, AllPlaced;
    assert order[|placed|] == b && order[..|placed|] == placed && order[..|placed| + 1] == placed + [b];
    assert b !in placed;
    assert SuccsIn(g, order[|placed|], Elems(order[..|placed|]));
    FinishedAppend(g, placed, b);
    assert f'[low..] == f[low..];
    PlaceOne(f, f', g, fl, off, placed, b, low);
  }

  /** There is room for the next block, and its successors lie further up. */
  lemma SlotsLeft(g: Graph, fl: Flags, placed: seq<int>, order: seq<int>, rest: seq<int>, b: int)
    requires |fl.jt| == |fl.jf| == |g| && 0 <= b < |g| && order == placed + [b] + rest
    ensures Sum(order, Sizes(g, fl)) >= Sum(placed, Sizes(g, fl)) + SizeAt(g, fl, b)
  {
    hide Live;
    var size := Sizes(g, fl);
    SumElems(placed, b, size);
    SumAppend(placed + [b], rest, size);
  }

  lemma SuccessorPlaced(f: seq<Insn>, g: Graph, fl: Flags, off: seq<int>, placed: seq<int>, order: seq<int>,
      rest: seq<int>, b: int, t: int)
    requires AllPlaced(f, g, fl, off, placed) && Finished(g, order) && order == placed + [b] + rest && 0 <= b < |g|
    requires !Leaf(g[b]) && (t == g[b].jt || t == g[b].jf)
    ensures 0 <= t < |g| && |f| - Sum(placed, Sizes(g, fl)) <= off[t] < |f|
    ensures t in order && b in order
    ensures Distance(g, fl, order, b, t)
      == off[t] - (|f| - Sum(placed, Sizes(g, fl)) - SizeAt(g, fl, b)) - Slen(g[b]) - 1
  {
    hide Live, Laid, Sum, Finished, Elems, Sizes;
    var size := Sizes(g, fl);
    var i := SuccessorIndex(g, placed, order, rest, b, t);
    assert PlacedAt(f, g, fl, off, placed, i);
    SumElems(placed, b, size);
    SumPrefix(placed, i + 1, size);
    SumNext(placed, i, size);
    SizesUnfold(g, fl, b);
    SizesUnfold(g, fl, t);
  }

  lemma SuccessorIndex(g: Graph, placed: seq<int>, order: seq<int>, rest: seq<int>, b: int, t: int) returns (i: nat)
    requires Finished(g, order) && order == placed + [b] + rest && 0 <= b < |g|
    requires !Leaf(g[b]) && (t == g[b].jt || t == g[b].jf)
    ensures i < |placed| && placed[i] == t && b in order && t in order
    ensures Pos(order, b) == |placed| && Pos(order, t) == i
    ensures order[..|placed| + 1] == placed + [b] && order[..i + 1] == placed[..i + 1]
  {
    hide Distinct, Pos;
    var n := |placed|;
    assert order[n] == b && order[..n] == placed;
    assert SuccsIn(g, order[n], Elems(order[..n]));
    assert t in placed;
    i :| 0 <= i < n && placed[i] == t;
    assert order[i] == t;
    PosIs(order, n);
    PosIs(order, i);
    assert order[..n + 1] == placed + [b];
    assert order[..i + 1] == placed[..i + 1];
  }

  lemma PosIs(order: seq<int>, i: nat)
    requires Distinct(order) && i < |order|
    ensures order[i] in order && Pos(order, order[i]) == i
  {
  }

  lemma LiveNothing()
    ensures Live([]) == []
  {
  }

  lemma LiveNext(ss: seq<Stmt>, i: nat)
    requires i < |ss|
    ensures Live(ss[..i + 1]) == Live(ss[..i]) + if ss[i].code == NOP then [] else [ss[i]]
    ensures |Live(ss[..i + 1])| <= |Live(ss)|
  {
    hide Live;
    LiveAppend(ss[..i], [ss[i]]);
    LiveAppend(ss[..i + 1], ss[i + 1..]);
    assert ss[..i + 1] == ss[..i] + [ss[i]] && ss == ss[..i + 1] + ss[i + 1..];
    LiveOne(ss[i]);
  }

  lemma LiveOne(s: Stmt)
    ensures Live([s]) == if s.code == NOP then [] else [s]
  {
    assert [s][1..] == [];
  }

  lemma SizesUnfold(g: Graph, fl: Flags, b: int)
    requires 0 <= b < |g| && |fl.jt| == |fl.jf| == |g|
    ensures Sizes(g, fl)(b) == |Live(g[b].stmts)| + 1 + Count(fl.jt[b]) + Count(fl.jf[b])
  {
  }
}
