/**
 What several parts of the program need.
 */
module Basics {

  datatype Option<T> = None | Some(value: T)

  type Byte = n: int | 0 <= n < 256

  type Bytes = seq<Byte>

  const LF: Byte := 10
  const CR: Byte := 13
  const SPACE: Byte := 0x20
  const COLON: Byte := 0x3a

  function Max(a: nat, b: nat): nat { if a > b then a else b }

  predicate Digit(b: Byte) { 0x30 <= b <= 0x39 }

  /** A number as %u and %d print it. */
  function Decimal(n: nat): (s: Bytes)
    ensures |s| > 0 && forall i :: 0 <= i < |s| ==> Digit(s[i])
  {
    if n < 10 then [0x30 + n] else Decimal(n / 10) + [0x30 + n % 10]
  }

  /** No element occurs twice. */
  ghost predicate Distinct<T>(s: seq<T>) {
    forall i, j :: 0 <= i < j < |s| ==> s[i] != s[j]
  }

  lemma {:induction false} SubsetSize<T>(a: set<T>, b: set<T>)
    requires a <= b
    ensures |a| <= |b|
  {
    if a != {} {
      var x :| x in a;
      SubsetSize(a - {x}, b - {x});
    }
  }
}
