/** Small things used throughout. */
module Basics {

  datatype Option<+T> = None | Some(value: T)

  function Min(a: nat, b: nat): nat { if a <= b then a else b }

  function Minus(a: nat, b: nat): nat { if a >= b then a - b else 0 }

  type Byte = x: nat | x < 256

  function Pow2(n: nat): (r: nat)
    ensures r >= 1
  {
    if n == 0 then 1 else 2 * Pow2(n - 1)
  }

  function Xor(a: bv32, b: bv32): bv32 { a ^ b }

  /** One if the condition holds, for counting. */
  function If(b: bool): nat { if b then 1 else 0 }

  // ---- Sequences ----

  ghost predicate Distinct<T>(s: seq<T>) {
    forall i, j :: 0 <= i < j < |s| ==> s[i] != s[j]
  }

  ghost predicate Increasing(s: seq<nat>) {
    forall i, j :: 0 <= i < j < |s| ==> s[i] < s[j]
  }

  /** A sequence without the element at one position. */
  function Without<T>(s: seq<T>, i: nat): (t: seq<T>)
    requires i < |s|
    ensures |t| == |s| - 1
    ensures forall j :: 0 <= j < i ==> t[j] == s[j]
    ensures forall j :: i <= j < |t| ==> t[j] == s[j + 1]
  {
    s[..i] + s[i + 1..]
  }

  // ---- Sets ----

  /** The first `n` natural numbers. */
  ghost function Ids(n: nat): (r: set<nat>)
    ensures |r| == n && forall id: nat :: id in r <==> id < n
  {
    if n == 0 then {} else Ids(n - 1) + {n - 1}
  }

  lemma AtMost(s: set<nat>, n: nat)
    requires forall id :: id in s ==> id < n
    ensures |s| <= n
  {
    assert Ids(n) == s + (Ids(n) - s);
  }
}
