/** Adler-32 (RFC 1950 section 2.2) and the combination of two check values,
    `examples/pgz.c`. */
module Adler {

  const BASE: nat := 65521
  const LOW16: nat := 65536

  /** The two running sums, both modulo BASE. */
  datatype Sums = Sums(s1: nat, s2: nat) {
    predicate Reduced() { s1 < BASE && s2 < BASE }

    function Value(): nat { s1 + LOW16 * s2 }
  }

  /** The sums after feeding `data`. */
  function Feed(s: Sums, data: seq<bv8>): (r: Sums)
    requires s.Reduced()
    ensures r.Reduced()
    decreases |data|
  {
    if data == [] then s
    else
      var s1 := Mod(s.s1 + data[0] as nat);
      Feed(Sums(s1, Mod(s.s2 + s1)), data[1..])
  }

  function SumsOf(data: seq<bv8>): (r: Sums)
    ensures r.Reduced()
  {
    Feed(Sums(1, 0), data)
  }

  /** Adler-32 of a byte string. */
  function Adler32(data: seq<bv8>): (r: nat)
    ensures r < 0x1_0000_0000
  {
    SumsOf(data).Value()
  }

  function Mod(x: int): (r: nat)
    ensures r < BASE
  {
    x % BASE
  }

  ghost predicate Congruent(x: int, y: int) { Mod(x) == Mod(y) }

  lemma ModUnique(x: int, y: int, q: int)
    requires x == y + q * BASE
    ensures Congruent(x, y)
  {
    var a, b := x / BASE, y / BASE;
    assert x % BASE - y % BASE == (b + q - a) * BASE;
  }

  lemma Quotient(x: int) returns (q: int)
    ensures x == Mod(x) + q * BASE
  {
    q := x / BASE;
  }

  lemma CongruentSum(a: int, b: int, c: int, d: int)
    requires Congruent(a, b) && Congruent(c, d)
    ensures Congruent(a + c, b + d)
  {
    var qa := Quotient(a);
    var qb := Quotient(b);
    var qc := Quotient(c);
    var qd := Quotient(d);
    ModUnique(a + c, b + d, qa - qb + qc - qd);
  }

  lemma Reduce(x: int)
    ensures Congruent(Mod(x), x)
    ensures 0 <= x < BASE ==> Mod(x) == x
  {
  }

  lemma {:induction false} FeedAppend(s: Sums, a: seq<bv8>, b: seq<bv8>)
    requires s.Reduced()
    ensures Feed(s, a + b) == Feed(Feed(s, a), b)
    decreases |a|
  {
    if a == [] {
      assert a + b == b;
    } else {
      assert (a + b)[1..] == a[1..] + b;
      var s1 := Mod(s.s1 + a[0] as nat);
      FeedAppend(Sums(s1, Mod(s.s2 + s1)), a[1..], b);
    }
  }

  /** Starting from sums that differ by `d1` and `d2` leaves the first sum
      `d1` apart and the second `d2 + |data| * d1`. */
  lemma {:induction false} FeedShift(s: Sums, t: Sums, d1: int, d2: int, data: seq<bv8>)
    requires s.Reduced() && t.Reduced()
    requires Congruent(t.s1, s.s1 + d1) && Congruent(t.s2, s.s2 + d2)
    ensures Congruent(Feed(t, data).s1, Feed(s, data).s1 + d1)
    ensures Congruent(Feed(t, data).s2, Feed(s, data).s2 + (d2 + |data| * d1))
    decreases |data|
  {
    hide Mod;
    if data != [] {
      var x := data[0] as nat;
      var s1, t1 := Mod(s.s1 + x), Mod(t.s1 + x);
      Reduce(s.s1 + x);
      Reduce(t.s1 + x);
      CongruentSum(t.s1, s.s1 + d1, x, x);
      CongruentSum(s1, s.s1 + x, d1, d1);
      assert Congruent(t1, s1 + d1);
      var s2, t2 := Mod(s.s2 + s1), Mod(t.s2 + t1);
      Reduce(s.s2 + s1);
      Reduce(t.s2 + t1);
      CongruentSum(t.s2, s.s2 + d2, t1, s1 + d1);
      CongruentSum(s2, s.s2 + s1, d1 + d2, d1 + d2);
      assert Congruent(t2, s2 + (d1 + d2));
      FeedShift(Sums(s1, s2), Sums(t1, t2), d1, d1 + d2, data[1..]);
      Distribute(d1, d2, |data|);
    }
  }

  lemma Distribute(d1: int, d2: int, n: nat)
    requires n > 0
    ensures (d1 + d2) + (n - 1) * d1 == d2 + n * d1
  {
  }

  /** The sums of a concatenation, from the sums of its parts. */
  function CombSums(a: Sums, b: Sums, len2: nat): (r: Sums)
    ensures r.Reduced()
  {
    Sums(Mod(a.s1 + b.s1 - 1), Mod(a.s2 + b.s2 + len2 * (a.s1 - 1)))
  }

  lemma CombConcat(a: seq<bv8>, b: seq<bv8>)
    ensures CombSums(SumsOf(a), SumsOf(b), |b|) == SumsOf(a + b)
  {
    hide Mod;
    var sa, sb, sab, start := SumsOf(a), SumsOf(b), SumsOf(a + b), Sums(1, 0);
    FeedAppend(start, a, b);
    FeedShift(start, sa, sa.s1 - 1, sa.s2, b);
    Reduce(sab.s1);
    Reduce(sab.s2);
    assert sb.s1 + (sa.s1 - 1) == sa.s1 + sb.s1 - 1;
    assert sb.s2 + (sa.s2 + |b| * (sa.s1 - 1)) == sa.s2 + sb.s2 + |b| * (sa.s1 - 1);
  }

  lemma Halves(s: Sums)
    requires s.Reduced()
    ensures s.Value() % LOW16 == s.s1 && (s.Value() / LOW16) % LOW16 == s.s2
  {
  }

  /** Conditional subtraction is reduction. */
  lemma ReducedValue(x: int, y: int, q: int)
    requires x == y + q * BASE && 0 <= x < BASE
    ensures x == Mod(y)
  {
    ModUnique(x, y, q);
  }

  /** The second sum before the conditional subtractions. */
  lemma SecondSum(a: Sums, b: Sums, len2: nat) returns (q: int)
    requires a.Reduced() && b.Reduced()
    ensures Mod(Mod(len2) * a.s1) + a.s2 + b.s2 + BASE - Mod(len2) ==
            a.s2 + b.s2 + len2 * (a.s1 - 1) + q * BASE
  {
    hide Mod;
    var rem := Mod(len2);
    var k := Quotient(len2);
    assert len2 == rem + k * BASE;
    var j := Quotient(rem * a.s1);
    assert len2 * (a.s1 - 1) == rem * a.s1 - rem + k * (a.s1 - 1) * BASE;
    q := 1 - j - k * (a.s1 - 1);
  }

  lemma ProductFits(x: nat, y: nat)
    requires x < BASE && y < BASE
    ensures x * y < 0x1_0000_0000
  {
    var slack := 65520 - x;
    assert slack * y >= 0;
    assert x * y == 65520 * y - slack * y;
  }

  /** A 32-bit word. */
  type Word = x: nat | x < 0x1_0000_0000

  /** The word arithmetic of the source, on check values split into halves:
      no product or sum leaves the 32-bit range, and both halves come out
      below BASE. */
  method CombHalves(a: Sums, b: Sums, len2: nat) returns (sum1: Word, sum2: Word)
    requires a.Reduced() && b.Reduced()
    ensures Sums(sum1, sum2) == CombSums(a, b, len2) && sum1 < BASE && sum2 < BASE
  {
    hide Mod;
    var rem: Word := Mod(len2);
    sum1 := a.s1;
    ProductFits(rem, sum1);
    var product: Word := rem * sum1;
    sum2 := Mod(product);
    ghost var p := 1;
    ghost var q := SecondSum(a, b, len2);
    sum1 := sum1 + b.s1 + BASE - 1;
    sum2 := sum2 + a.s2 + b.s2 + BASE - rem;
    if sum1 >= BASE { sum1 := sum1 - BASE; p := p - 1; }
    if sum1 >= BASE { sum1 := sum1 - BASE; p := p - 1; }
    if sum2 >= 2 * BASE { sum2 := sum2 - 2 * BASE; q := q - 2; }
    if sum2 >= BASE { sum2 := sum2 - BASE; q := q - 1; }
    ReducedValue(sum1, a.s1 + b.s1 - 1, p);
    ReducedValue(sum2, a.s2 + b.s2 + len2 * (a.s1 - 1), q);
  }

  /** The sums that a 32-bit word holds. */
  function Split(adler: nat): Sums {
    Sums(adler % LOW16, (adler / LOW16) % LOW16)
  }

  /** The specification of the combination of two check values. */
  function Comb(adler1: nat, adler2: nat, len2: nat): nat {
    CombSums(Split(adler1), Split(adler2), len2).Value()
  }

  /** Combining the check values of two strings gives that of their concatenation. */
  lemma CombWords(a: seq<bv8>, b: seq<bv8>)
    ensures Comb(Adler32(a), Adler32(b), |b|) == Adler32(a + b)
  {
    hide CombSums;
    Halves(SumsOf(a));
    Halves(SumsOf(b));
    CombConcat(a, b);
  }

  /** Combine two check values given as 32-bit words. */
  method Adler32Comb(adler1: nat, adler2: nat, len2: nat) returns (adler: nat)
    requires Split(adler1).Reduced() && Split(adler2).Reduced()
    ensures adler == Comb(adler1, adler2, len2)
  {
    var a := Sums(adler1 % LOW16, (adler1 / LOW16) % LOW16);
    var b := Sums(adler2 % LOW16, (adler2 / LOW16) % LOW16);
    var sum1, sum2 := CombHalves(a, b, len2);
    adler := Sums(sum1, sum2).Value();
  }

  // ---- What the value is ----

  /** The sum of the bytes. */
  function ByteSum(data: seq<bv8>): nat
    decreases |data|
  {
    if data == [] then 0 else ByteSum(data[..|data| - 1]) + data[|data| - 1] as nat
  }

  /** The sum, over all bytes, of one and the bytes up to that one. */
  function RunningSums(data: seq<bv8>): nat
    decreases |data|
  {
    if data == [] then 0 else RunningSums(data[..|data| - 1]) + (1 + ByteSum(data))
  }

  /** The sums without reduction. */
  lemma {:induction false} SumsAre(data: seq<bv8>)
    ensures SumsOf(data) == Sums((1 + ByteSum(data)) % 65521, RunningSums(data) % 65521)
    decreases |data|
  {
    hide Mod;
    if data == [] {
      Reduce(1);
      Reduce(0);
    } else {
      var init, x := data[..|data| - 1], data[|data| - 1];
      SumsAre(init);
      FeedAppend(Sums(1, 0), init, [x]);
      assert init + [x] == data;
      FeedOne(SumsOf(init), x);
      SumStep(1 + ByteSum(init), x as nat);
      SumStep(RunningSums(init), 1 + ByteSum(data));
      ModSame(RunningSums(init) % 65521, 1 + ByteSum(data));
    }
  }

  lemma FeedOne(s: Sums, x: bv8)
    requires s.Reduced()
    ensures Feed(s, [x]) == Sums(Mod(s.s1 + x as nat), Mod(s.s2 + Mod(s.s1 + x as nat)))
  {
    var s1 := Mod(s.s1 + x as nat);
    assert Feed(Sums(s1, Mod(s.s2 + s1)), [x][1..]) == Sums(s1, Mod(s.s2 + s1));
  }

  lemma SumStep(a: nat, b: nat)
    ensures Mod(a % 65521 + b) == (a + b) % 65521
  {
    var q := a / 65521;
    ModUnique(a % 65521 + b, a + b, -q);
  }

  lemma ModSame(a: nat, b: nat)
    ensures Mod(a + b % 65521) == Mod(a + b)
  {
    var q := b / 65521;
    ModUnique(a + b % 65521, a + b, -q);
  }

  /** Adler-32 as section 2.2 of RFC 1950 describes it: the low half is one and
      the sum of the bytes, the high half the sum of all sums up to a byte. */
  lemma AdlerIs(data: seq<bv8>)
    ensures Adler32(data) == 65536 * (RunningSums(data) % 65521) + (1 + ByteSum(data)) % 65521
  {
    SumsAre(data);
  }
}
