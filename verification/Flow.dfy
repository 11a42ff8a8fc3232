/**
 Flow graphs: the blocks that the code generator builds, the optimizer rewrites and the
 layout pass turns into a program (struct block in deps/libpcap/gencode.h).

 A pointer to a block is its index in the compiler's arena, which only grows while a
 filter is compiled; NULL is -1.  Fields of a block that belong to one pass only (marks,
 offsets, value numbers, ...) live in the class of that pass.
 */
module Flow {
  import opened Machine

  const NULL := -1

  /** jt and jf are the successors on a true and a false test; sense and head serve the code
      generator only. */
  datatype Block = Block(stmts: seq<Stmt>, br: Stmt, jt: int, jf: int, sense: bool, head: int)

  type Graph = seq<Block>

  predicate Leaf(b: Block) { b.jt < 0 }

  predicate StmtOk(s: Stmt) { s.code == NOP || IsPlain(Decode(s.code)) }

  /** A statement whose operand the machine can always use. */
  predicate Safe(s: Stmt) {
    var op := Decode(s.code);
    && (op.LdMem? || op.LdxMem? || op.StA? || op.StX? ==> s.k < MEMWORDS)
    && (op == AluK(Div) || op == AluK(Mod) ==> s.k != 0)
  }

  predicate IsBranch(s: Stmt) { Decode(s.code).JmpK? || Decode(s.code).JmpX? }

  predicate IsReturn(s: Stmt) { Decode(s.code).RetK? || Decode(s.code).RetA? }

  /** Statements neither branch nor return, the last instruction does. */
  predicate BlockOk(b: Block) {
    && (forall s :: s in b.stmts ==> StmtOk(s))
    && (if Leaf(b) then b.jf < 0 && IsReturn(b.br) else IsBranch(b.br))
  }

  // ----- running a graph -----

  function RunStmt(s: Stmt, p: Packet, r: Regs): Effect
    requires StmtOk(s)
  {
    if s.code == NOP then Next(r) else Exec(Decode(s.code), s.k, p, r)
  }

  function RunStmts(ss: seq<Stmt>, p: Packet, r: Regs): Effect
    requires forall s :: s in ss ==> StmtOk(s)
  {
    if ss == [] then Next(r)
    else
      var e := RunStmt(ss[0], p, r);
      if e.Next? then RunStmts(ss[1..], p, e.r) else e
  }

  lemma {:induction false} RunStmtsAppend(ss: seq<Stmt>, tt: seq<Stmt>, p: Packet, r: Regs)
    requires forall s :: s in ss ==> StmtOk(s)
    requires forall s :: s in tt ==> StmtOk(s)
    ensures RunStmts(ss + tt, p, r) ==
      var e := RunStmts(ss, p, r); if e.Next? then RunStmts(tt, p, e.r) else e
  {
    if ss == [] {
      assert ss + tt == tt;
    } else {
      assert (ss + tt)[1..] == ss[1..] + tt;
      var e := RunStmt(ss[0], p, r);
      if e.Next? { RunStmtsAppend(ss[1..], tt, p, e.r); }
    }
  }

  /** The statements that count: all but the deleted ones. */
  function Live(ss: seq<Stmt>): (l: seq<Stmt>)
    ensures forall s :: s in l ==> s in ss && s.code != NOP
  {
    if ss == [] then [] else (if ss[0].code == NOP then [] else [ss[0]]) + Live(ss[1..])
  }

  /** Deleted statements do nothing. */
  lemma {:induction false} LiveRuns(ss: seq<Stmt>, p: Packet, r: Regs)
    requires forall s :: s in ss ==> StmtOk(s)
    ensures RunStmts(Live(ss), p, r) == RunStmts(ss, p, r)
  {
    if ss != [] {
      if ss[0].code == NOP {
        assert Live(ss) == Live(ss[1..]);
        LiveRuns(ss[1..], p, r);
      } else {
        assert Live(ss)[0] == ss[0] && Live(ss)[1..] == Live(ss[1..]);
        var e := RunStmt(ss[0], p, r);
        if e.Next? { LiveRuns(ss[1..], p, e.r); }
      }
    }
  }

  /** Does the test at the end of a block succeed? */
  predicate Taken(br: Stmt, r: Regs)
    requires IsBranch(br)
  {
    var op := Decode(br.code);
    Test(op.cmp, r.a, if op.JmpK? then br.k else r.x)
  }

  function ReturnValue(br: Stmt, r: Regs): Word
    requires IsReturn(br)
  {
    if Decode(br.code).RetK? then br.k else r.a
  }

  /** A numbering of a set of blocks, closed under successors, that falls along every edge:
      the part of the graph on its keys is acyclic. */
  ghost predicate Ranked(g: Graph, rank: map<int, nat>) {
    forall b :: b in rank ==>
      && 0 <= b < |g|
      && BlockOk(g[b])
      && (!Leaf(g[b]) ==>
            && g[b].jt in rank && rank[g[b].jt] < rank[b]
            && g[b].jf in rank && rank[g[b].jf] < rank[b])
  }

  datatype Verdict = Returned(v: Word) | Rejected | Failed

  /** The result of a graph entered at block b. */
  ghost function Run(g: Graph, rank: map<int, nat>, p: Packet, b: int, r: Regs): Verdict
    requires Ranked(g, rank) && b in rank
    decreases rank[b]
  {
    match RunStmts(g[b].stmts, p, r)
    case Reject => Rejected
    case Fault => Failed
    case Next(r') =>
      if Leaf(g[b]) then Returned(ReturnValue(g[b].br, r'))
      else Run(g, rank, p, if Taken(g[b].br, r') then g[b].jt else g[b].jf, r')
  }

  /** The result does not depend on the numbering that shows the graph acyclic. */
  lemma {:induction false} RunIgnoresRank(g: Graph, rank: map<int, nat>, rank': map<int, nat>, p: Packet, b: int,
      r: Regs)
    requires Ranked(g, rank) && Ranked(g, rank') && b in rank && b in rank'
    ensures Run(g, rank, p, b, r) == Run(g, rank', p, b, r)
    decreases rank[b]
  {
    var e := RunStmts(g[b].stmts, p, r);
    if e.Next? && !Leaf(g[b]) {
      RunIgnoresRank(g, rank, rank', p, if Taken(g[b].br, e.r) then g[b].jt else g[b].jf, e.r);
    }
  }
}
