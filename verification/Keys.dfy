/**
 The keys of the tracker's two hash tables: endpoints and connections, spelled by snprintf in
 src/packet.c.
 */
module Keys {
  import opened Basics
  import opened Tracker

  /** "%u:%d" of an address and a port. */
  function Spell(e: Endpoint): Bytes { Decimal(e.ip) + [COLON] + Decimal(e.port) }

  /** "%u:%d %u:%d" of a client and a server. */
  function SpellPair(p: Pair): Bytes { Spell(p.client) + [SPACE] + Spell(p.server) }

  /** The number that a row of digits is. */
  function Value(s: Bytes): int {
    if s == [] then 0 else 10 * Value(s[..|s| - 1]) + (s[|s| - 1] as int - 0x30)
  }

  /** A number is printed by its digits, without leading zeros. */
  lemma {:induction false} DecimalReads(n: nat)
    ensures Value(Decimal(n)) == n && (n > 0 ==> Decimal(n)[0] != 0x30) && (n == 0 ==> Decimal(n) == [0x30])
  {
    var s := Decimal(n);
    if n < 10 {
      assert s[..0] == [];
    } else {
      assert s[..|s| - 1] == Decimal(n / 10);
      DecimalReads(n / 10);
    }
  }

  // ----- no two things have the same key -----

  lemma {:induction false} DecimalInjective(m: nat, n: nat)
    requires Decimal(m) == Decimal(n)
    ensures m == n
    decreases m
  {
    var s, t := Decimal(m), Decimal(n);
    assert s[|s| - 1] == 0x30 + m % 10 && t[|t| - 1] == 0x30 + n % 10;
    if m >= 10 && n >= 10 {
      assert s[..|s| - 1] == Decimal(m / 10) && t[..|t| - 1] == Decimal(n / 10);
      DecimalInjective(m / 10, n / 10);
    }
  }

  /** A text splits in only one way at the first separator. */
  lemma SplitOnce(a: Bytes, b: Bytes, c: Bytes, d: Bytes, sep: Byte)
    requires a + [sep] + b == c + [sep] + d && sep !in a && sep !in c
    ensures a == c && b == d
  {
    var s := a + [sep] + b;
    assert s[|a|] == sep && s[|c|] == sep;
    assert s[..|a|] == a && s[..|c|] == c;
    assert s[|a| + 1..] == b && s[|c| + 1..] == d;
  }

  lemma SpellInjective(e: Endpoint, f: Endpoint)
    requires Spell(e) == Spell(f)
    ensures e == f
  {
    hide Decimal;
    SplitOnce(Decimal(e.ip), Decimal(e.port), Decimal(f.ip), Decimal(f.port), COLON);
    DecimalInjective(e.ip, f.ip);
    DecimalInjective(e.port, f.port);
  }

  lemma NoSpace(e: Endpoint)
    ensures SPACE !in Spell(e)
  {
    hide Decimal;
  }

  lemma SpellPairInjective(p: Pair, q: Pair)
    requires SpellPair(p) == SpellPair(q)
    ensures p == q
  {
    hide Spell;
    NoSpace(p.client);
    NoSpace(q.client);
    SplitOnce(Spell(p.client), Spell(p.server), Spell(q.client), Spell(q.server), SPACE);
    SpellInjective(p.client, q.client);
    SpellInjective(p.server, q.server);
  }

  // ----- and the buffers hold them -----

  function Power10(k: nat): (p: nat)
    ensures p > 0
  {
    if k == 0 then 1 else 10 * Power10(k - 1)
  }

  lemma {:induction false} DecimalLength(n: nat, k: nat)
    requires k > 0 && n < Power10(k)
    ensures |Decimal(n)| <= k
    decreases k
  {
    if n >= 10 {
      assert k > 1;
      DecimalLength(n / 10, k - 1);
    }
  }

  /** Both keys fit their buffers of 32 and 64 bytes, so snprintf truncates neither. */
  lemma KeysFit(e: Endpoint, p: Pair)
    ensures |Spell(e)| < 32 && |SpellPair(p)| < 64
  {
    hide Decimal;
    EndpointLength(e);
    EndpointLength(p.client);
    EndpointLength(p.server);
  }

  lemma EndpointLength(e: Endpoint)
    ensures |Spell(e)| <= 16
  {
    hide Decimal;
    assert Power10(5) == 100_000;
    assert Power10(10) == 100_000 * 100_000;
    DecimalLength(e.ip, 10);
    DecimalLength(e.port, 5);
  }
}
