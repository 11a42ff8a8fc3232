/**
 Boolean filter expressions and the shape of the branching code that computes them.

 This is the mathematical side of the backpatching code generator: `Shape` says where each
 exit of each test leads, `Open` lists the exits that leave the expression in the order in
 which the generator threads them, and `ShapeComputesTree` shows that following the exits
 is short-circuit evaluation.  Tests are values of any type T that act on a state R.
 */
module BoolExpr {
  import opened Basics

  /** `Op(true, u, v)` is "u or v", `Op(false, u, v)` is "u and v". */
  datatype Tree<T> = Prim(test: T) | Not(arg: Tree<T>) | Op(or: bool, left: Tree<T>, right: Tree<T>)

  // ----- what an expression means -----

  /** A test answers, or ends the whole filter because it rejects the packet. */
  datatype Outcome<R> = Answer(yes: bool, r: R) | Rejects | Faults

  function Negated<R>(o: Outcome<R>): Outcome<R> {
    if o.Answer? then Answer(!o.yes, o.r) else o
  }

  /** Left-to-right short-circuit evaluation; the state carries over from test to test, and a
      test that rejects ends everything. */
  function Eval<T, R>(ev: (T, R) -> Outcome<R>, t: Tree<T>, r: R): Outcome<R> {
    match t
    case Prim(a) => ev(a, r)
    case Not(u) => Negated(Eval(ev, u, r))
    case Op(or, u, v) =>
      var o := Eval(ev, u, r);
      if o.Answer? && o.yes != or then Eval(ev, v, o.r) else o
  }

  // ----- the shape of the code for an expression -----

  /** Where an exit of a test leads: to the test at a position of the expression, or out of
      the expression because it is true or false. */
  datatype Exit = To(pos: nat) | Out(yes: bool)

  datatype Links = Links(jt: Exit, jf: Exit)

  /** The tests of an expression from left to right. */
  function Tests<T>(t: Tree<T>): (s: seq<T>)
    ensures |s| > 0
  {
    match t
    case Prim(a) => [a]
    case Not(u) => Tests(u)
    case Op(_, u, v) => Tests(u) + Tests(v)
  }

  function Size<T>(t: Tree<T>): nat { |Tests(t)| }

  function Flip(e: Exit): Exit { if e.Out? then Out(!e.yes) else e }

  function FlipAll(s: seq<Links>): (s': seq<Links>)
    ensures |s'| == |s|
    ensures forall i :: 0 <= i < |s| ==> s'[i] == Links(Flip(s[i].jt), Flip(s[i].jf))
  {
    seq(|s|, i requires 0 <= i < |s| => Links(Flip(s[i].jt), Flip(s[i].jf)))
  }

  /** An exit of the left operand of "or" (of "and"): false (true) leads on to the right operand. */
  function Onward(e: Exit, or: bool, d: nat): Exit { if e == Out(!or) then To(d) else e }

  function Shift(e: Exit, d: nat): Exit { if e.To? then To(e.pos + d) else e }

  function Join(s: seq<Links>, s': seq<Links>, or: bool): (j: seq<Links>)
    ensures |j| == |s| + |s'|
    ensures forall i :: 0 <= i < |s| ==> j[i] == Links(Onward(s[i].jt, or, |s|), Onward(s[i].jf, or, |s|))
    ensures forall i :: |s| <= i < |j| ==> j[i] == Links(Shift(s'[i - |s|].jt, |s|), Shift(s'[i - |s|].jf, |s|))
  {
    seq(|s|, i requires 0 <= i < |s| => Links(Onward(s[i].jt, or, |s|), Onward(s[i].jf, or, |s|)))
    + seq(|s'|, i requires 0 <= i < |s'| => Links(Shift(s'[i].jt, |s|), Shift(s'[i].jf, |s|)))
  }

  function Shape<T>(t: Tree<T>): (s: seq<Links>)
    ensures |s| == Size(t)
  {
    match t
    case Prim(_) => [Links(Out(true), Out(false))]
    case Not(u) => FlipAll(Shape(u))
    case Op(or, u, v) => Join(Shape(u), Shape(v), or)
  }

  /** Exits lead forward; the last test has both exits open, every other test at most one. */
  ghost predicate GoodShape(s: seq<Links>) {
    && |s| > 0
    && (forall i :: 0 <= i < |s| ==> s[i].jt.To? ==> i < s[i].jt.pos < |s|)
    && (forall i :: 0 <= i < |s| ==> s[i].jf.To? ==> i < s[i].jf.pos < |s|)
    && (forall i :: 0 <= i < |s| - 1 ==> s[i].jt.To? || s[i].jf.To?)
    && s[|s| - 1].jt.Out? && s[|s| - 1].jf == Out(!s[|s| - 1].jt.yes)
  }

  lemma JoinIsGood(s: seq<Links>, s': seq<Links>, or: bool)
    requires GoodShape(s) && GoodShape(s')
    ensures GoodShape(Join(s, s', or))
  {
  }

  lemma {:induction false} ShapeIsGood<T>(t: Tree<T>)
    ensures GoodShape(Shape(t))
  {
    match t
    case Prim(_) =>
    case Not(u) => ShapeIsGood(u);
    case Op(or, u, v) => ShapeIsGood(u); ShapeIsGood(v); JoinIsGood(Shape(u), Shape(v), or);
  }

  // ----- the lists of open exits -----

  function Moved(s: seq<nat>, d: nat): (m: seq<nat>)
    ensures |m| == |s| && forall k :: 0 <= k < |s| ==> m[k] == s[k] + d
  {
    seq(|s|, i requires 0 <= i < |s| => s[i] + d)
  }

  lemma MovedMember(s: seq<nat>, d: nat, i: nat)
    ensures i in Moved(s, d) <==> i >= d && i - d in s
  {
    if i >= d && i - d in s {
      var k :| 0 <= k < |s| && s[k] == i - d;
      assert Moved(s, d)[k] == i;
    }
  }

  /** The positions with an open exit on the given outcome, in the order of the linked list. */
  function Open<T>(t: Tree<T>, yes: bool): seq<nat> {
    match t
    case Prim(_) => [0]
    case Not(u) => Open(u, !yes)
    case Op(or, u, v) => Moved(Open(v, yes), Size(u)) + if yes == or then Open(u, yes) else []
  }

  predicate IsOpen(l: Links, yes: bool) { l.jt == Out(yes) || l.jf == Out(yes) }

  /** The list of open exits starts at the last test and names no test twice ... */
  ghost predicate OpenList(open: seq<nat>, s: seq<Links>, yes: bool) {
    && |open| > 0 && open[0] == |s| - 1
    && Distinct(open)
    && (forall k :: 0 <= k < |open| ==> open[k] < |s| && IsOpen(s[open[k]], yes))
  }

  /** ... and it leaves none out. */
  ghost predicate GoodOpen(open: seq<nat>, s: seq<Links>, yes: bool) {
    && OpenList(open, s, yes)
    && (forall i :: 0 <= i < |s| && IsOpen(s[i], yes) ==> i in open)
  }

  lemma OpenInJoin(s: seq<Links>, s': seq<Links>, or: bool, yes: bool, i: nat)
    requires i < |s| + |s'|
    ensures IsOpen(Join(s, s', or)[i], yes)
       <==> if i < |s| then yes == or && IsOpen(s[i], yes) else IsOpen(s'[i - |s|], yes)
  {
  }

  lemma JoinedOpen(o: seq<nat>, s: seq<Links>, o': seq<nat>, s': seq<Links>, or: bool, yes: bool)
    requires GoodOpen(o, s, yes) && GoodOpen(o', s', yes)
    ensures GoodOpen(Moved(o', |s|) + if yes == or then o else [], Join(s, s', or), yes)
  {
    var a, b, j := Moved(o', |s|), if yes == or then o else [], Join(s, s', or);
    var open := a + b;
    forall i | 0 <= i < |j|
      ensures IsOpen(j[i], yes) <==> i in open
    {
      OpenInJoin(s, s', or, yes, i);
      MovedMember(o', |s|, i);
    }
    forall k | 0 <= k < |open|
      ensures open[k] < |j| && IsOpen(j[open[k]], yes)
    {
      assert open[k] in open;
    }
    DistinctParts(a, b, |s|);
  }

  lemma DistinctParts(a: seq<nat>, b: seq<nat>, d: nat)
    requires Distinct(a) && Distinct(b)
    requires forall k :: 0 <= k < |a| ==> a[k] >= d
    requires forall k :: 0 <= k < |b| ==> b[k] < d
    ensures Distinct(a + b)
  {
  }

  lemma {:induction false} OpenIsGood<T>(t: Tree<T>, yes: bool)
    ensures GoodOpen(Open(t, yes), Shape(t), yes)
  {
    match t
    case Prim(_) =>
    case Not(u) => OpenIsGood(u, !yes);
    case Op(or, u, v) =>
      OpenIsGood(u, yes);
      OpenIsGood(v, yes);
      JoinedOpen(Open(u, yes), Shape(u), Open(v, yes), Shape(v), or, yes);
  }

  // ----- following the exits computes the expression -----

  /** Run the tests from a position until control leaves the expression. */
  ghost function RunShape<T, R>(ev: (T, R) -> Outcome<R>, tests: seq<T>, s: seq<Links>, pos: nat, r: R): Outcome<R>
    requires |tests| == |s| && pos < |s| && GoodShape(s)
    decreases |s| - pos
  {
    var o := ev(tests[pos], r);
    if !o.Answer? then o
    else
      match if o.yes then s[pos].jt else s[pos].jf
      case Out(yes) => Answer(yes, o.r)
      case To(next) => RunShape(ev, tests, s, next, o.r)
  }

  lemma {:induction false} RunFlipped<T, R>(ev: (T, R) -> Outcome<R>, tests: seq<T>, s: seq<Links>, pos: nat, r: R)
    requires |tests| == |s| && pos < |s| && GoodShape(s) && GoodShape(FlipAll(s))
    ensures RunShape(ev, tests, FlipAll(s), pos, r) == Negated(RunShape(ev, tests, s, pos, r))
    decreases |s| - pos
  {
    var o := ev(tests[pos], r);
    if o.Answer? {
      var e := if o.yes then s[pos].jt else s[pos].jf;
      if e.To? { RunFlipped(ev, tests, s, e.pos, o.r); }
    }
  }

  /** Inside "u or v" and "u and v", the right operand runs as it does alone. */
  lemma {:induction false} RunRight<T, R>(ev: (T, R) -> Outcome<R>, a: seq<T>, s: seq<Links>, a': seq<T>,
      s': seq<Links>, or: bool, pos: nat, r: R)
    requires |a| == |s| && |a'| == |s'| && pos < |s'| && GoodShape(s') && GoodShape(Join(s, s', or))
    ensures RunShape(ev, a + a', Join(s, s', or), |s| + pos, r) == RunShape(ev, a', s', pos, r)
    decreases |s'| - pos
  {
    var o := ev(a'[pos], r);
    if o.Answer? {
      var e := if o.yes then s'[pos].jt else s'[pos].jf;
      if e.To? { RunRight(ev, a, s, a', s', or, e.pos, o.r); }
    }
  }

  /** The left operand runs as it does alone, and the outcome that does not decide continues at
      the right operand. */
  lemma {:induction false} RunLeft<T, R>(ev: (T, R) -> Outcome<R>, a: seq<T>, s: seq<Links>, a': seq<T>,
      s': seq<Links>, or: bool, pos: nat, r: R)
    requires |a| == |s| && |a'| == |s'| && pos < |s| && GoodShape(s) && GoodShape(s') && GoodShape(Join(s, s', or))
    ensures var o := RunShape(ev, a, s, pos, r);
      RunShape(ev, a + a', Join(s, s', or), pos, r)
        == if o.Answer? && o.yes != or then RunShape(ev, a + a', Join(s, s', or), |s|, o.r) else o
    decreases |s| - pos
  {
    var o := ev(a[pos], r);
    if o.Answer? {
      var e := if o.yes then s[pos].jt else s[pos].jf;
      if e.To? { RunLeft(ev, a, s, a', s', or, e.pos, o.r); }
    }
  }

  /** Following the exits of an expression's code is short-circuit evaluation. */
  lemma {:induction false} ShapeComputesTree<T, R>(ev: (T, R) -> Outcome<R>, t: Tree<T>, r: R)
    ensures GoodShape(Shape(t))
    ensures RunShape(ev, Tests(t), Shape(t), 0, r) == Eval(ev, t, r)
  {
    ShapeIsGood(t);
    match t
    case Prim(_) =>
    case Not(u) =>
      ShapeComputesTree(ev, u, r);
      RunFlipped(ev, Tests(u), Shape(u), 0, r);
    case Op(or, u, v) =>
      ShapeIsGood(v);
      ShapeComputesTree(ev, u, r);
      RunLeft(ev, Tests(u), Shape(u), Tests(v), Shape(v), or, 0, r);
      var o := Eval(ev, u, r);
      if o.Answer? {
        ShapeComputesTree(ev, v, o.r);
        RunRight(ev, Tests(u), Shape(u), Tests(v), Shape(v), or, 0, o.r);
      }
  }
}
