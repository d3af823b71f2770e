/** Cutting codes of any width off a byte stream, a byte at a time. */
module LzwBits {
  import opened Basics
  import opened LzwSpec

  // ---- Shifts of non-negative numbers ----

  lemma DivSum(x: nat, z: nat, p: nat)
    requires p > 0
    ensures (x + p * z) / p == x / p + z && (x + p * z) % p == x % p
  {
    var q, r := x / p, x % p;
    assert x == p * q + r;
    assert x + p * z == p * (q + z) + r;
    DivUnique(x + p * z, p, q + z, r);
  }

  lemma MultipleFar(p: int, k: int)
    requires p > 0 && k != 0
    ensures p * k >= p || p * k <= -p
  {
    if k > 0 {
      assert p * k == p + p * (k - 1) && p * (k - 1) >= 0;
    } else {
      assert p * k == -p - p * (-k - 1) && p * (-k - 1) >= 0;
    }
  }

  lemma DivMod(n: nat, p: nat)
    requires p > 0
    ensures n == p * (n / p) + n % p && 0 <= n % p < p
  {
  }

  lemma DivUnique(n: nat, p: nat, q: int, r: nat)
    requires p > 0 && n == p * q + r && r < p
    ensures n / p == q && n % p == r
  {
    DivMod(n, p);
    var d, e := n / p, n % p;
    assert p * (d - q) == p * d - p * q == r - e;
    if d != q {
      MultipleFar(p, d - q);
    }
  }

  lemma DivShift(x: nat, y: nat, n: nat, m: nat)
    requires m <= n
    ensures (x + Pow2(n) * y) / Pow2(m) == x / Pow2(m) + Pow2(n - m) * y
    ensures (x + Pow2(n) * y) % Pow2(m) == x % Pow2(m)
  {
    Pow2Add(m, n - m);
    var p, q := Pow2(m), Pow2(n - m);
    assert Pow2(n) * y == p * (q * y);
    DivSum(x, q * y, p);
  }

  lemma Below(p: nat, r: nat, d: nat, b: nat)
    requires d < r && b < p
    ensures p * d + b < p * r
  {
    assert p * r == p * d + p * (r - d) && p * (r - d) == p + p * (r - d - 1);
    assert p * (r - d - 1) >= 0;
  }

  /** Dividing by a product, one factor at a time. */
  lemma DivTwice(n: nat, p: nat, r: nat)
    requires p > 0 && r > 0
    ensures p * r > 0 && n / (p * r) == (n / p) / r
  {
    var a, b := n / p, n % p;
    DivMod(n, p);
    var c, d := a / r, a % r;
    DivMod(a, r);
    Distribute(p, r, c, d);
    Below(p, r, d, b);
    DivUnique(n, p * r, c, p * d + b);
  }

  lemma Distribute(p: nat, r: nat, c: nat, d: nat)
    ensures p * (r * c + d) == (p * r) * c + p * d
  {
  }

  lemma DivHigh(a: nat, b: nat, q: nat, r: nat)
    requires a < Pow2(q)
    ensures (a + Pow2(q) * b) / Pow2(q + r) == b / Pow2(r)
  {
    Pow2Add(q, r);
    DivTwice(a + Pow2(q) * b, Pow2(q), Pow2(r));
    DivSum(a, b, Pow2(q));
    assert a / Pow2(q) == 0 by {
      DivUnique(a, Pow2(q), 0, a);
    }
  }

  // ---- What the reader keeps ----

  /** The reader has consumed the touched bytes of the group, and keeps the
      `left` unused bits of the last of them in `rem`; `chunk` bytes of the
      group are untouched. */
  ghost predicate At(s: State, rest: seq<Byte>, left: nat, rem: nat, chunk: nat) {
    s.Used() <= |s.group| && rest == s.group[s.Used()..] &&
    left == 8 * s.Used() - s.Bit() &&
    rem == Number(s.group[..s.Used()]) / Pow2(s.Bit()) &&
    (rest != [] ==> chunk == if s.taken == 0 then 0 else s.bits - s.Used())
  }

  /** The code, from the kept bits and the bytes from `used` to `n`. */
  lemma CodeFromBytes(g: seq<Byte>, bit: nat, bits: nat, used: nat, n: nat)
    requires used <= n <= |g| && bit <= 8 * used && bit + bits <= 8 * n
    ensures (Number(g) / Pow2(bit)) % Pow2(bits) ==
            (Number(g[..used]) / Pow2(bit) + Pow2(8 * used - bit) * Number(g[used..n])) % Pow2(bits)
  {
    hide Pow2, Number;
    assert g == g[..n] + g[n..] && g[..n] == g[..used] + g[used..n];
    NumberAppend(g[..n], g[n..]);
    DivShift(Number(g[..n]), Number(g[n..]), 8 * n, bit);
    DivShift(Number(g[..n]) / Pow2(bit), Number(g[n..]), 8 * n - bit, bits);
    NumberAppend(g[..used], g[used..n]);
    DivShift(Number(g[..used]), Number(g[used..n]), 8 * used, bit);
  }

  /** The bits of the last byte that the code did not use. */
  lemma BitsKept(g: seq<Byte>, end: nat, n: nat)
    requires 0 < n <= |g| && 8 * (n - 1) <= end <= 8 * n
    ensures Number(g[..n]) / Pow2(end) == g[n - 1] / Pow2(8 - (8 * n - end))
  {
    hide Pow2, Number;
    assert g[..n] == g[..n - 1] + [g[n - 1]];
    NumberAppend(g[..n - 1], [g[n - 1]]);
    OneByte(g[n - 1]);
    NumberBound(g[..n - 1]);
    DivHigh(Number(g[..n - 1]), g[n - 1], 8 * (n - 1), end - 8 * (n - 1));
  }

  lemma OneByte(b: Byte)
    ensures Number([b]) == b
  {
    assert Number([b]) == b + 256 * Number([]);
  }

  lemma TwoBytes(a: Byte, b: Byte, left: nat)
    ensures Number([a]) == a
    ensures Number([a, b]) == a + 256 * b
    ensures Pow2(left) * Number([a, b]) == a * Pow2(left) + b * Pow2(left + 8)
  {
    assert Number([a]) == a + 256 * Number([]);
    assert [a, b][1..] == [b];
    assert Number([b]) == b + 256 * Number([]);
    Pow2Add(left, 8);
    Pow2Small();
    assert Pow2(left) * (a + 256 * b) == a * Pow2(left) + b * (Pow2(left) * 256);
  }
}
