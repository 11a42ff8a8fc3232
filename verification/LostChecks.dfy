/**
 Which protocol checks a relation performs.  A comment in gen_load (deps/libpcap/gencode.c)
 says that a load is computed only if the packet contains the protocol; gen_arth forgets the
 checks of its right operand, so this holds for some relations and not for others.
 */
module LostChecks {
  import opened Basics
  import opened Machine
  import opened BoolExpr
  import opened Headers
  import opened Arith

  function HeaderChecks(h: Header): set<Tree<Field>> {
    match h
    case Link(_) => {}
    case Network(_, check) => {check}
    case Transport(offset, ip, proto) => {ip, proto, FirstFragment(offset)}
  }

  /** The checks that the loads of an expression ask for. */
  function Asked(e: Expr): set<Tree<Field>> {
    match e
    case Imm(_) => {}
    case PacketLen => {}
    case Load(i, _, h) => Asked(i) + HeaderChecks(h)
    case Neg(a) => Asked(a)
    case Bin(_, l, r) => Asked(l) + Asked(r)
  }

  /** Those that its code performs. */
  function Kept(e: Expr): set<Tree<Field>> {
    match e
    case Imm(_) => {}
    case PacketLen => {}
    case Load(i, _, h) => Kept(i) + HeaderChecks(h)
    case Neg(a) => Kept(a)
    case Bin(_, l, _) => Kept(l)
  }

  predicate IsTrue(o: Outcome<()>) { o.Answer? && o.yes }

  predicate Holds(c: Tree<Field>, p: Packet) { IsTrue(Eval(FieldJudge(p), c, ())) }

  predicate Passes(c: Option<Tree<Field>>, p: Packet) { c.Some? ==> Holds(c.value, p) }

  ghost predicate AllHold(cs: set<Tree<Field>>, p: Packet) { forall c :: c in cs ==> Holds(c, p) }

  lemma AndHolds(u: Tree<Field>, v: Tree<Field>, p: Packet)
    ensures Holds(Op(false, u, v), p) <==> Holds(u, p) && Holds(v, p)
  {
    var o := Eval(FieldJudge(p), u, ());
    assert o.Answer? ==> o.r == ();
  }

  lemma BothPass(a: Option<Tree<Field>>, b: Option<Tree<Field>>, p: Packet)
    ensures Passes(Both(a, b), p) <==> Passes(a, p) && Passes(b, p)
  {
    hide Holds;
    if a.Some? && b.Some? { AndHolds(a.value, b.value, p); }
  }

  lemma GuardedPasses(h: Header, inner: Option<Tree<Field>>, p: Packet)
    ensures Passes(Guarded(h, inner), p) <==> Passes(inner, p) && AllHold(HeaderChecks(h), p)
  {
    hide FirstFragment, Holds;
    match h
    case Link(_) =>
    case Network(_, check) =>
      BothPass(inner, Some(check), p);
    case Transport(offset, ip, proto) =>
      var first := Op(false, proto, FirstFragment(offset));
      AndHolds(proto, FirstFragment(offset), p);
      BothPass(inner, Some(first), p);
      BothPass(Some(ip), Both(inner, Some(first)), p);
  }

  /** The code's checks pass exactly when all kept ones hold. */
  lemma {:induction false} ChecksAreKept(e: Expr, p: Packet)
    ensures Passes(Checks(e), p) <==> AllHold(Kept(e), p)
  {
    hide Holds, Passes, HeaderChecks, Guarded;
    match e
    case Imm(_) => NothingPasses(p);
    case PacketLen => NothingPasses(p);
    case Load(i, _, h) =>
      ChecksAreKept(i, p);
      GuardedPasses(h, Checks(i), p);
    case Neg(a) => ChecksAreKept(a, p);
    case Bin(_, l, _) => ChecksAreKept(l, p);
  }

  lemma NothingPasses(p: Packet)
    ensures Passes(None, p)
  {
  }

  /** A relation is true of a packet exactly when every kept check holds and the comparison,
      reversed or not, is true. */
  lemma TrueIffKept(rel: Relation, p: Packet)
    ensures IsTrue(Judge(rel, p)) <==>
      AllHold(Kept(rel.left) + Kept(rel.right), p) && IsTrue(Compared(rel, p))
  {
    hide Checks, Compared, Kept, FieldOutcome;
    ChecksAreKept(rel.left, p);
    ChecksAreKept(rel.right, p);
    BothPass(Checks(rel.left), Checks(rel.right), p);
  }

  lemma {:induction false} KeptIsAsked(e: Expr)
    ensures Kept(e) <= Asked(e)
  {
    match e
    case Imm(_) =>
    case PacketLen =>
    case Load(i, _, _) => KeptIsAsked(i);
    case Neg(a) => KeptIsAsked(a);
    case Bin(_, l, _) => KeptIsAsked(l);
  }

  /** The relation is true of a packet that lacks a protocol whose header it reads. */
  ghost predicate WronglyTrue(rel: Relation, p: Packet) {
    IsTrue(Judge(rel, p)) && !AllHold(Asked(rel.left) + Asked(rel.right), p)
  }

  /** This happens exactly when a lost check fails, all others hold and the comparison is true. */
  lemma WronglyTrueIff(rel: Relation, p: Packet)
    ensures var asked, kept := Asked(rel.left) + Asked(rel.right), Kept(rel.left) + Kept(rel.right);
      WronglyTrue(rel, p) <==> AllHold(kept, p) && !AllHold(asked - kept, p) && IsTrue(Compared(rel, p))
  {
    hide Judge, Compared, Holds, Kept, Asked;
    TrueIffKept(rel, p);
    KeptIsAsked(rel.left);
    KeptIsAsked(rel.right);
  }

  /** So a relation that loses nothing is never wrongly true. */
  lemma NothingLost(rel: Relation, p: Packet)
    requires Asked(rel.left) + Asked(rel.right) == Kept(rel.left) + Kept(rel.right)
    ensures !WronglyTrue(rel, p)
  {
    hide WronglyTrue, Compared, Holds, Kept, Asked;
    WronglyTrueIff(rel, p);
  }

  const IP: Tree<Field> := Prim(Field(12, Half2, ALL_BITS, Eq, 0x800))

  /** An Ethernet frame with no type whose first payload byte looks like an IP header. */
  const NOT_IP: Packet := PacketData([0, 0, 0, 0, 0, 0, 0, 0, 0, 0, 0, 0, 0, 0, 0x45], 15)

  /** "1 + ip[0] = 0x46" is true of a packet that is not IP; "ip[0] + 1 = 0x46" is not. */
  lemma RightCheckIsLost()
    ensures var byte := Load(Imm(0), Byte1, Network(14, IP));
      && WronglyTrue(Relation(Eq, Bin(Add, Imm(1), byte), Imm(0x46), false), NOT_IP)
      && Judge(Relation(Eq, Bin(Add, byte, Imm(1)), Imm(0x46), false), NOT_IP) == Answer(false, ())
  {
    var byte := Load(Imm(0), Byte1, Network(14, IP));
    assert Extract(NOT_IP, 14, Byte1) == 0x45;
    assert Octets(NOT_IP, 12, 2) == 0;
    assert Meaning(byte, NOT_IP) == Val(0x45);
    assert Eval(FieldJudge(NOT_IP), IP, ()) == Answer(false, ());
    assert Checks(byte) == Some(IP) && Checks(Imm(1)) == None;
  }
}
