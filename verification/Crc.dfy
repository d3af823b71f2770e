/** CRC-32 (RFC 1952 sections 2.3.1 and 8) and the combination of two check
    values by powers of the zero-bit operator over GF(2), `examples/pgz.c`.

    Proofs about many bits at once hide the word operations below and use
    only the laws stated about them. */
module Crc {
  import opened Basics

  // ---- Words ----

  function Half(a: bv32): bv32 { a >> 1 }

  function Twice(a: bv32): bv32 { a << 1 }

  function And(a: bv32, b: bv32): bv32 { a & b }

  predicate Odd(a: bv32) { a & 1 == 1 }

  lemma XorAssoc(a: bv32, b: bv32, c: bv32)
    ensures Xor(Xor(a, b), c) == Xor(a, Xor(b, c))
  {
  }

  lemma XorCommutes(a: bv32, b: bv32)
    ensures Xor(a, b) == Xor(b, a)
  {
  }

  lemma XorSwap(a: bv32, b: bv32, c: bv32, d: bv32)
    ensures Xor(Xor(a, b), Xor(c, d)) == Xor(Xor(a, c), Xor(b, d))
  {
    hide Xor;
    XorAssoc(a, b, Xor(c, d));
    XorAssoc(b, c, d);
    XorCommutes(b, c);
    XorAssoc(c, b, d);
    XorAssoc(a, c, Xor(b, d));
  }

  lemma XorZero(a: bv32)
    ensures Xor(a, 0) == a && Xor(0, a) == a && Xor(a, a) == 0
  {
  }

  lemma XorHalf(a: bv32, b: bv32)
    ensures Half(Xor(a, b)) == Xor(Half(a), Half(b))
    ensures Odd(Xor(a, b)) == (Odd(a) != Odd(b))
  {
    XorShifted(a, b);
    XorLowBits(a, b);
    LowBit(a);
    LowBit(b);
  }

  lemma XorShifted(a: bv32, b: bv32)
    ensures (a ^ b) >> 1 == (a >> 1) ^ (b >> 1)
  {
  }

  lemma XorLowBits(a: bv32, b: bv32)
    ensures (a ^ b) & 1 == (a & 1) ^ (b & 1)
  {
  }

  lemma LowBit(a: bv32)
    ensures a & 1 == 0 || a & 1 == 1
  {
  }

  lemma XorTwice(a: bv32, b: bv32)
    ensures Twice(Xor(a, b)) == Xor(Twice(a), Twice(b))
  {
  }

  lemma ZeroWord()
    ensures Half(0) == 0 && !Odd(0)
  {
  }

  // ---- The CRC itself, bit by bit ----

  const POLY: bv32 := 0xedb88320

  const ONES: bv32 := 0xffff_ffff

  /** The register after one more (zero) input bit. */
  function BitStep(r: bv32): bv32 {
    if Odd(r) then Xor(Half(r), POLY) else Half(r)
  }

  /** The register after `n` zero bits. */
  function ZeroBits(n: nat, r: bv32): bv32 {
    if n == 0 then r else ZeroBits(n - 1, BitStep(r))
  }

  /** The register after the bytes of `data`, without the final complement. */
  function Register(r: bv32, data: seq<bv8>): bv32
    decreases |data|
  {
    if data == [] then r
    else Register(ZeroBits(8, Xor(r, data[0] as bv32)), data[1..])
  }

  /** CRC-32 of a byte string. */
  function Crc32(data: seq<bv8>): bv32 {
    Xor(ONES, Register(ONES, data))
  }

  lemma BitStepXor(a: bv32, b: bv32)
    ensures BitStep(Xor(a, b)) == Xor(BitStep(a), BitStep(b))
  {
    hide Xor, Half, Odd;
    XorHalf(a, b);
    XorZero(POLY);
    XorZero(Half(a));
    XorZero(Half(b));
    XorZero(Xor(Half(a), Half(b)));
    XorSwap(Half(a), POLY, Half(b), POLY);
    XorSwap(Half(a), POLY, Half(b), 0);
    XorSwap(Half(a), 0, Half(b), POLY);
  }

  lemma {:induction false} ZeroBitsXor(n: nat, a: bv32, b: bv32)
    ensures ZeroBits(n, Xor(a, b)) == Xor(ZeroBits(n, a), ZeroBits(n, b))
  {
    hide Xor, BitStep;
    if n > 0 {
      BitStepXor(a, b);
      ZeroBitsXor(n - 1, BitStep(a), BitStep(b));
    }
  }

  lemma {:induction false} ZeroBitsAdd(m: nat, n: nat, r: bv32)
    ensures ZeroBits(m + n, r) == ZeroBits(n, ZeroBits(m, r))
  {
    hide BitStep;
    if m > 0 {
      ZeroBitsAdd(m - 1, n, BitStep(r));
    }
  }

  /** Feeding `data` from register `a ^ b` is feeding it from `b`, with `a`
      carried through as many zero bits. */
  lemma {:induction false} RegisterXor(a: bv32, b: bv32, data: seq<bv8>)
    ensures Register(Xor(a, b), data) == Xor(ZeroBits(8 * |data|, a), Register(b, data))
    decreases |data|
  {
    hide Xor, BitStep;
    if data != [] {
      var d := data[0] as bv32;
      XorAssoc(a, b, d);
      ZeroBitsXor(8, a, Xor(b, d));
      RegisterXor(ZeroBits(8, a), ZeroBits(8, Xor(b, d)), data[1..]);
      ZeroBitsAdd(8, 8 * |data[1..]|, a);
    }
  }

  lemma {:induction false} RegisterAppend(r: bv32, a: seq<bv8>, b: seq<bv8>)
    ensures Register(r, a + b) == Register(Register(r, a), b)
    decreases |a|
  {
    hide Xor, BitStep;
    if a == [] {
      assert a + b == b;
    } else {
      assert (a + b)[1..] == a[1..] + b;
      RegisterAppend(ZeroBits(8, Xor(r, a[0] as bv32)), a[1..], b);
    }
  }

  lemma Rearrange(z: bv32, za: bv32, r0: bv32)
    ensures Xor(ONES, Xor(za, r0)) == Xor(Xor(z, za), Xor(ONES, Xor(z, r0)))
  {
  }

  /** What a combination of check values must compute, for all byte strings. */
  lemma CombineSpec(a: seq<bv8>, b: seq<bv8>)
    ensures Crc32(a + b) == Xor(ZeroBits(8 * |b|, Crc32(a)), Crc32(b))
  {
    hide Xor, BitStep, ZeroBits;
    var ra, n := Register(ONES, a), 8 * |b|;
    RegisterAppend(ONES, a, b);
    XorZero(ra);
    XorZero(ONES);
    RegisterXor(ra, 0, b);
    RegisterXor(ONES, 0, b);
    ZeroBitsXor(n, ONES, ra);
    Rearrange(ZeroBits(n, ONES), ZeroBits(n, ra), Register(0, b));
  }

  // ---- 32 by 32 matrices over GF(2), stored by columns ----

  /** The product of the matrix with columns `mat` and the vector `vec`. */
  function Times(mat: seq<bv32>, vec: bv32): bv32
    decreases |mat|
  {
    if mat == [] then 0
    else Xor(if Odd(vec) then mat[0] else 0, Times(mat[1..], Half(vec)))
  }

  /** `mat` is the operator for `n` zero bits. */
  ghost predicate Operator(mat: seq<bv32>, n: nat) {
    |mat| == 32 && forall v :: Times(mat, v) == ZeroBits(n, v)
  }

  lemma {:induction false} TimesXor(mat: seq<bv32>, a: bv32, b: bv32)
    ensures Times(mat, Xor(a, b)) == Xor(Times(mat, a), Times(mat, b))
    decreases |mat|
  {
    hide Xor, Half, Odd;
    if mat == [] {
      XorZero(0);
    } else {
      XorHalf(a, b);
      TimesXor(mat[1..], Half(a), Half(b));
      var m, ta, tb := mat[0], Times(mat[1..], Half(a)), Times(mat[1..], Half(b));
      XorZero(m);
      XorZero(0);
      XorSwap(if Odd(a) then m else 0, ta, if Odd(b) then m else 0, tb);
    }
  }

  lemma {:induction false} TimesZero(mat: seq<bv32>)
    ensures Times(mat, 0) == 0
    decreases |mat|
  {
    hide Xor, Half, Odd;
    if mat != [] {
      TimesZero(mat[1..]);
      ZeroWord();
      XorZero(0);
    }
  }

  /** Applying `outer` to every column composes the two operators. */
  lemma {:induction false} TimesCompose(outer: seq<bv32>, mat: seq<bv32>, image: seq<bv32>, v: bv32)
    requires |image| == |mat|
    requires forall i :: 0 <= i < |mat| ==> image[i] == Times(outer, mat[i])
    ensures Times(image, v) == Times(outer, Times(mat, v))
    decreases |mat|
  {
    hide Xor, Half, Odd;
    TimesZero(outer);
    if mat != [] {
      TimesCompose(outer, mat[1..], image[1..], Half(v));
      TimesXor(outer, if Odd(v) then mat[0] else 0, Times(mat[1..], Half(v)));
    }
  }

  lemma SquareOperator(mat: seq<bv32>, square: seq<bv32>, n: nat)
    requires Operator(mat, n) && |square| == 32
    requires forall i :: 0 <= i < 32 ==> square[i] == Times(mat, mat[i])
    ensures Operator(square, 2 * n)
  {
    hide Times, ZeroBits;
    forall v ensures Times(square, v) == ZeroBits(2 * n, v) {
      TimesCompose(mat, mat, square, v);
      ZeroBitsAdd(n, n, v);
    }
  }

  // ---- The operator for one zero bit ----

  /** Columns p, p << 1, p << 2, ... */
  function Shifts(p: bv32, n: nat): (s: seq<bv32>)
    ensures |s| == n
    decreases n
  {
    if n == 0 then [] else [p] + Shifts(Twice(p), n - 1)
  }

  function LowStep(l: bv32): bv32 { Twice(l) | 1 }

  /** The `n` low bits set. */
  function Low(n: nat): bv32 {
    if n == 0 then 0 else LowStep(Low(n - 1))
  }

  lemma {:induction false} ShiftsDouble(p: bv32, n: nat, v: bv32)
    ensures Times(Shifts(Twice(p), n), v) == Twice(Times(Shifts(p, n), v))
    decreases n
  {
    hide Xor, Half, Odd, Twice;
    TwiceZero();
    if n > 0 {
      ShiftsDouble(Twice(p), n - 1, Half(v));
      XorTwice(if Odd(v) then p else 0, Times(Shifts(Twice(p), n - 1), Half(v)));
      assert Shifts(p, n)[1..] == Shifts(Twice(p), n - 1);
      assert Shifts(Twice(p), n)[1..] == Shifts(Twice(Twice(p)), n - 1);
    }
  }

  lemma TwiceZero()
    ensures Twice(0) == 0
  {
  }

  lemma MaskOdd(v: bv32, l: bv32)
    requires v & 1 == 1
    ensures 1 ^ (((v >> 1) & l) << 1) == v & ((l << 1) | 1)
  {
  }

  lemma MaskEven(v: bv32, l: bv32)
    requires v & 1 != 1
    ensures 0 ^ (((v >> 1) & l) << 1) == v & ((l << 1) | 1)
  {
  }

  lemma MaskStep(v: bv32, l: bv32)
    ensures Xor(if Odd(v) then 1 else 0, Twice(And(Half(v), l))) == And(v, LowStep(l))
  {
    if Odd(v) {
      MaskOdd(v, l);
    } else {
      MaskEven(v, l);
    }
  }

  lemma MaskZero(v: bv32)
    ensures And(v, 0) == 0
  {
  }

  lemma {:induction false} ShiftsIdentity(n: nat, v: bv32)
    ensures Times(Shifts(1, n), v) == And(v, Low(n))
    decreases n
  {
    hide Xor, Half, Odd, Twice, And, LowStep;
    if n > 0 {
      assert Shifts(1, n)[1..] == Shifts(Twice(1), n - 1);
      ShiftsDouble(1, n - 1, Half(v));
      ShiftsIdentity(n - 1, Half(v));
      MaskStep(v, Low(n - 1));
    } else {
      MaskZero(v);
    }
  }

  lemma Low31()
    ensures Low(31) == 0x7fff_ffff
  {
    assert Low(8) == 0xff;
    assert Low(16) == 0xffff;
    assert Low(24) == 0xff_ffff;
  }

  lemma MaskedShift(v: bv32)
    ensures And(Half(v), 0x7fff_ffff) == Half(v)
  {
  }

  lemma OneBitOperator(odd: seq<bv32>)
    requires odd == [POLY] + Shifts(1, 31)
    ensures Operator(odd, 1)
  {
    hide Xor, Half, Odd, Twice, And, Shifts, Low;
    Low31();
    forall v ensures Times(odd, v) == ZeroBits(1, v) {
      assert odd[1..] == Shifts(1, 31);
      ShiftsIdentity(31, Half(v));
      MaskedShift(v);
      assert Times(odd, v) == Xor(if Odd(v) then POLY else 0, Half(v));
      XorZero(Half(v));
      XorCommutes(POLY, Half(v));
      assert ZeroBits(1, v) == ZeroBits(0, BitStep(v)) == BitStep(v);
    }
  }

  // ---- The loops of the source ----

  /** `v` has no bit at or above position `n`. */
  predicate Fits(v: bv32, n: nat) {
    v == 0 || (n > 0 && Fits(Half(v), n - 1))
  }

  lemma HalfBelow(v: bv32, l: bv32)
    requires v <= LowStep(l)
    ensures Half(v) <= l
  {
  }

  lemma {:induction false} BelowFits(v: bv32, n: nat)
    requires v <= Low(n)
    ensures Fits(v, n)
    decreases n
  {
    hide Half, LowStep;
    if n > 0 {
      HalfBelow(v, Low(n - 1));
      BelowFits(Half(v), n - 1);
    }
  }

  lemma WordFits(v: bv32)
    ensures Fits(v, 32)
  {
    Low31();
    assert Low(32) == LowStep(Low(31));
    BelowFits(v, 32);
  }

  method Gf2MatrixTimes(mat: array<bv32>, vec: bv32) returns (sum: bv32)
    requires mat.Length == 32
    ensures sum == Times(mat[..], vec)
  {
    hide Xor, Half, Odd;
    WordFits(vec);
    sum := 0;
    var v, n := vec, 0;
    XorZero(Times(mat[..], vec));
    assert mat[0..] == mat[..];
    while v != 0
      invariant n <= 32 && Fits(v, 32 - n)
      invariant Xor(sum, Times(mat[n..], v)) == Times(mat[..], vec)
      decreases 32 - n
    {
      assert mat[n..][1..] == mat[n + 1..];
      XorAssoc(sum, mat[n], Times(mat[n + 1..], Half(v)));
      XorZero(Times(mat[n + 1..], Half(v)));
      if Odd(v) {
        sum := Xor(sum, mat[n]);
      }
      v, n := Half(v), n + 1;
    }
    TimesZero(mat[n..]);
    XorZero(sum);
  }

  method Gf2MatrixSquare(square: array<bv32>, mat: array<bv32>, ghost power: nat)
    requires square.Length == mat.Length == 32 && square != mat
    requires Operator(mat[..], power)
    modifies square
    ensures Operator(square[..], 2 * power)
  {
    hide Times, ZeroBits;
    for n := 0 to 32
      invariant mat[..] == old(mat[..])
      invariant forall i :: 0 <= i < n ==> square[i] == Times(mat[..], mat[i])
    {
      square[n] := Gf2MatrixTimes(mat, mat[n]);
    }
    SquareOperator(mat[..], square[..], power);
  }

  /** Consuming the low bit of a count of zero-bit groups. */
  lemma HalveCount(group: nat, len: nat, r: bv32)
    ensures ZeroBits(group * len, r) ==
            ZeroBits((2 * group) * (len / 2), if len % 2 == 1 then ZeroBits(group, r) else r)
  {
    var half := len / 2;
    assert len == 2 * half + len % 2;
    assert group * len == (2 * group) * half + group * (len % 2);
    if len % 2 == 1 {
      ZeroBitsAdd(group, (2 * group) * half, r);
    }
  }

  lemma ShiftsNext(done: seq<bv32>, p: bv32, n: nat)
    requires n > 0
    ensures done + Shifts(p, n) == (done + [p]) + Shifts(Twice(p), n - 1)
  {
    hide Twice;
  }

  /** The columns 0xedb88320, 1, 2, 4, ... written by the set-up loop. */
  method OneZeroBit(odd: array<bv32>)
    requires odd.Length == 32
    modifies odd
    ensures Operator(odd[..], 1)
  {
    hide Twice, Operator, Shifts;
    odd[0] := POLY;
    var row: bv32 := 1;
    for n := 1 to 32
      invariant odd[0] == POLY
      invariant odd[1..n] + Shifts(row, 32 - n) == Shifts(1, 31)
    {
      ShiftsNext(odd[1..n], row, 32 - n);
      odd[n] := row;
      assert odd[1..n + 1] == odd[1..n] + [row];
      row := Twice(row);
    }
    assert odd[..] == [POLY] + odd[1..32];
    OneBitOperator(odd[..]);
  }

  /** The specification of the combination: an empty second part is skipped. */
  function Comb(crc1: bv32, crc2: bv32, len2: nat): bv32 {
    if len2 == 0 then crc1 else Xor(ZeroBits(8 * len2, crc1), crc2)
  }

  /** Combining the check values of two strings gives that of their concatenation. */
  lemma CombConcat(a: seq<bv8>, b: seq<bv8>)
    ensures Comb(Crc32(a), Crc32(b), |b|) == Crc32(a + b)
  {
    hide Xor, ZeroBits, Crc32;
    if b == [] {
      assert a + b == a;
    } else {
      CombineSpec(a, b);
    }
  }

  /** `crc1` is carried through `8 * len2` zero bits by repeated squaring,
      with the operators for odd and even powers kept in two matrices. */
  method Crc32Comb(crc1: bv32, crc2: bv32, len2: nat) returns (crc: bv32)
    ensures crc == Comb(crc1, crc2, len2)
  {
    hide Times, ZeroBits, Xor;
    if len2 == 0 {
      return crc1;
    }
    var even := new bv32[32](_ => 0);
    var odd := new bv32[32](_ => 0);
    OneZeroBit(odd);
    Gf2MatrixSquare(even, odd, 1);
    Gf2MatrixSquare(odd, even, 2);
    crc := crc1;
    var len := len2;
    ghost var power := 4;
    while true
      invariant len > 0
      invariant Operator(odd[..], power)
      invariant ZeroBits((2 * power) * len, crc) == ZeroBits(8 * len2, crc1)
      decreases len
    {
      Gf2MatrixSquare(even, odd, power);
      HalveCount(2 * power, len, crc);
      if len % 2 == 1 {
        crc := Gf2MatrixTimes(even, crc);
      }
      len := len / 2;
      assert ZeroBits((4 * power) * len, crc) == ZeroBits(8 * len2, crc1);
      if len == 0 {
        NoBits(4 * power, crc);
        break;
      }

      Gf2MatrixSquare(odd, even, 2 * power);
      HalveCount(4 * power, len, crc);
      if len % 2 == 1 {
        crc := Gf2MatrixTimes(odd, crc);
      }
      len := len / 2;
      power := 4 * power;
      assert ZeroBits((2 * power) * len, crc) == ZeroBits(8 * len2, crc1);
      if len == 0 {
        NoBits(2 * power, crc);
        break;
      }
    }
    crc := Xor(crc, crc2);
  }

  lemma NoBits(group: nat, r: bv32)
    ensures ZeroBits(group * 0, r) == r
  {
  }

  // ---- The table-driven form ----

  /** The sample code in section 8 of RFC 1952: an entry of its table. */
  function TableEntry(n: bv32, k: nat): bv32
    decreases k
  {
    if k == 0 then n
    else TableEntry(if n & 1 == 1 then 0xedb88320 ^ (n >> 1) else n >> 1, k - 1)
  }

  function TableStep(c: bv32, b: bv8): bv32 {
    Xor(TableEntry(LowByte(Xor(c, b as bv32)), 8), ShiftByte(c))
  }

  function LowByte(x: bv32): bv32 { x & 0xff }

  function ShiftByte(x: bv32): bv32 { x >> 8 }

  function TableUpdate(c: bv32, data: seq<bv8>): bv32
    decreases |data|
  {
    if data == [] then c else TableUpdate(TableStep(c, data[0]), data[1..])
  }

  function TableCrc(data: seq<bv8>): bv32 {
    TableUpdate(0xffff_ffff, data) ^ 0xffff_ffff
  }

  lemma {:induction false} EntryIs(n: bv32, k: nat)
    ensures TableEntry(n, k) == ZeroBits(k, n)
    decreases k
  {
    if k > 0 {
      EntryIs(BitStep(n), k - 1);
    }
  }

  /** Eight zero bits shift out eight zero bits. */
  lemma HighBits(h: bv32)
    requires h & 0xff == 0
    ensures ZeroBits(8, h) == h >> 8
  {
    var a, b, c, d := h >> 1, h >> 2, h >> 3, h >> 4;
    var e, f, g := h >> 5, h >> 6, h >> 7;
    LowZeros(h);
    Chained(h);
    hide Odd, Half;
    assert BitStep(h) == a && BitStep(a) == b && BitStep(b) == c && BitStep(c) == d;
    assert BitStep(d) == e && BitStep(e) == f && BitStep(f) == g && BitStep(g) == h >> 8;
    hide BitStep;
    assert ZeroBits(8, h) == ZeroBits(7, a) == ZeroBits(6, b) == ZeroBits(5, c) == ZeroBits(4, d);
    assert ZeroBits(4, d) == ZeroBits(3, e) == ZeroBits(2, f) == ZeroBits(1, g) == ZeroBits(0, h >> 8);
  }

  lemma LowZeros(h: bv32)
    requires h & 0xff == 0
    ensures !Odd(h) && !Odd(h >> 1) && !Odd(h >> 2) && !Odd(h >> 3)
    ensures !Odd(h >> 4) && !Odd(h >> 5) && !Odd(h >> 6) && !Odd(h >> 7)
  {
  }

  lemma Chained(h: bv32)
    ensures Half(h) == h >> 1 && Half(h >> 1) == h >> 2 && Half(h >> 2) == h >> 3 && Half(h >> 3) == h >> 4
    ensures Half(h >> 4) == h >> 5 && Half(h >> 5) == h >> 6 && Half(h >> 6) == h >> 7 && Half(h >> 7) == h >> 8
  {
  }

  function HighPart(x: bv32): bv32 { x & 0xffff_ff00 }

  lemma SplitWord(x: bv32)
    ensures Xor(LowByte(x), HighPart(x)) == x
    ensures HighPart(x) & 0xff == 0 && HighPart(x) >> 8 == ShiftByte(HighPart(x))
  {
  }

  lemma ShiftedApart(c: bv32, w: bv32)
    requires w < 0x100
    ensures ShiftByte(HighPart(Xor(c, w))) == ShiftByte(c)
  {
  }

  lemma ByteFits(b: bv8)
    ensures (b as bv32) < 0x100
  {
  }

  /** A word split into the byte looked up and the rest. */
  lemma OneWord(c: bv32, w: bv32, lo: bv32, hi: bv32, up: bv32)
    requires Xor(lo, hi) == Xor(c, w) && ZeroBits(8, hi) == up
    ensures Xor(TableEntry(lo, 8), up) == ZeroBits(8, Xor(c, w))
  {
    hide Xor, ZeroBits, TableEntry;
    EntryIs(lo, 8);
    ZeroBitsXor(8, lo, hi);
  }

  /** One byte, by the table and by bits. */
  lemma OneByte(c: bv32, b: bv8)
    ensures TableStep(c, b) == ZeroBits(8, Xor(c, b as bv32))
  {
    hide ZeroBits, TableEntry, Xor, LowByte, HighPart, ShiftByte;
    ByteFits(b);
    OneWordByte(c, b as bv32);
  }

  lemma OneWordByte(c: bv32, w: bv32)
    requires w < 0x100
    ensures Xor(TableEntry(LowByte(Xor(c, w)), 8), ShiftByte(c)) == ZeroBits(8, Xor(c, w))
  {
    hide ZeroBits, TableEntry, Xor, LowByte, HighPart, ShiftByte;
    var x := Xor(c, w);
    SplitWord(x);
    ShiftedApart(c, w);
    HighBits(HighPart(x));
    OneWord(c, w, LowByte(x), HighPart(x), ShiftByte(c));
  }

  lemma {:induction false} UpdateIs(c: bv32, data: seq<bv8>)
    ensures TableUpdate(c, data) == Register(c, data)
    decreases |data|
  {
    hide ZeroBits, TableStep, Xor;
    if data != [] {
      OneByte(c, data[0]);
      UpdateIs(ZeroBits(8, Xor(c, data[0] as bv32)), data[1..]);
    }
  }

  /** The CRC-32 defined by bits is that of the table-driven code. */
  lemma CrcIs(data: seq<bv8>)
    ensures Crc32(data) == TableCrc(data)
  {
    UpdateIs(ONES, data);
    XorCommutes(ONES, Register(ONES, data));
  }

  /** A known value: the CRC-32 of the letter "a". */
  lemma KnownValue()
    ensures Crc32([0x61]) == 0xe8b7be43
  {
    assert Register(ONES, [0x61]) == 0x174841bc by {
      assert Register(0x174841bc, [0x61][1..]) == 0x174841bc;
      KnownSteps();
    }
  }

  lemma KnownSteps()
    ensures ZeroBits(8, Xor(ONES, 0x61)) == 0x174841bc
  {
    assert BitStep(0xffffff9e) == 0x7fffffcf && BitStep(0x7fffffcf) == 0xd2477cc7;
    assert BitStep(0xd2477cc7) == 0x849b3d43 && BitStep(0x849b3d43) == 0xaff51d81;
    assert BitStep(0xaff51d81) == 0xba420de0 && BitStep(0xba420de0) == 0x5d2106f0;
    assert BitStep(0x5d2106f0) == 0x2e908378 && BitStep(0x2e908378) == 0x174841bc;
    hide BitStep;
    assert Xor(ONES, 0x61) == 0xffffff9e;
    assert ZeroBits(8, 0xffffff9e) == ZeroBits(7, 0x7fffffcf) == ZeroBits(6, 0xd2477cc7) == ZeroBits(5, 0x849b3d43);
    assert ZeroBits(5, 0x849b3d43) == ZeroBits(4, 0xaff51d81) == ZeroBits(3, 0xba420de0) == ZeroBits(2, 0x5d2106f0);
    assert ZeroBits(2, 0x5d2106f0) == ZeroBits(1, 0x2e908378) == ZeroBits(0, 0x174841bc);
  }
}
