/** Compressed files as an encoder of the Unix compress format would write
    them, bit by bit, and what module LzwSpec says they mean: the data. */
module LzwRoundTrip {
  import opened Basics
  import opened LzwSpec
  import opened LzwBits
  import opened Streams
  import opened Lzw

  // ---- Bits ----

  /** The number whose binary digits are `b`, least significant first. */
  function Value(b: seq<bool>): nat
    decreases |b|
  {
    if b == [] then 0 else (if b[0] then 1 else 0) + 2 * Value(b[1..])
  }

  /** The low `w` bits of `c`, least significant first. */
  function CodeBits(c: nat, w: nat): (b: seq<bool>)
    ensures |b| == w
  {
    if w == 0 then [] else [c % 2 == 1] + CodeBits(c / 2, w - 1)
  }

  function Zeros(n: nat): (b: seq<bool>)
    ensures |b| == n
  {
    seq(n, _ => false)
  }

  /** Eight bits to the byte, the first in the lowest place; the last byte is
      filled up with zeros. */
  function ToBytes(b: seq<bool>): seq<Byte>
    decreases |b|
  {
    if b == [] then []
    else
      var n := Min(8, |b|);
      ByteValue(b[..n]);
      [Value(b[..n])] + ToBytes(b[n..])
  }

  lemma {:induction false} ValueBound(b: seq<bool>)
    ensures Value(b) < Pow2(|b|)
    decreases |b|
  {
    if b != [] {
      ValueBound(b[1..]);
    }
  }

  lemma ByteValue(b: seq<bool>)
    requires |b| <= 8
    ensures Value(b) < 256
  {
    ValueBound(b);
    Pow2Add(|b|, 8 - |b|);
    Pow2Small();
    AtLeastOnce(Pow2(|b|), Pow2(8 - |b|));
  }

  lemma AtLeastOnce(p: nat, q: nat)
    requires q >= 1
    ensures p <= p * q
  {
    assert p * q == p + p * (q - 1) && p * (q - 1) >= 0;
  }

  lemma {:induction false} ValueAppend(a: seq<bool>, b: seq<bool>)
    ensures Value(a + b) == Value(a) + Pow2(|a|) * Value(b)
    decreases |a|
  {
    hide Pow2, Value;
    if a == [] {
      assert a + b == b;
      NoValue();
    } else {
      assert (a + b)[1..] == a[1..] + b && (a + b)[0] == a[0];
      ValueAppend(a[1..], b);
      ValueFirst(a);
      ValueFirst(a + b);
      Twice(|a[1..]|, Value(b));
    }
  }

  lemma ValueFirst(b: seq<bool>)
    requires b != []
    ensures Value(b) == (if b[0] then 1 else 0) + 2 * Value(b[1..])
  {
  }

  lemma Twice(n: nat, v: nat)
    ensures 2 * (Pow2(n) * v) == Pow2(n + 1) * v
  {
  }

  lemma {:induction false} CodeBitsValue(c: nat, w: nat)
    requires c < Pow2(w)
    ensures Value(CodeBits(c, w)) == c
    decreases w
  {
    if w > 0 {
      CodeBitsValue(c / 2, w - 1);
      assert CodeBits(c, w)[1..] == CodeBits(c / 2, w - 1);
    }
  }

  lemma {:induction false} BytesLength(b: seq<bool>)
    ensures |ToBytes(b)| == (|b| + 7) / 8
    decreases |b|
  {
    if b != [] {
      BytesLength(b[Min(8, |b|)..]);
    }
  }

  lemma {:induction false} BytesNumber(b: seq<bool>)
    ensures Number(ToBytes(b)) == Value(b)
    decreases |b|
  {
    hide Value, Pow2;
    if b == [] {
      NumberOfNone();
      NoValue();
    } else {
      var n := Min(8, |b|);
      BytesNumber(b[n..]);
      assert b == b[..n] + b[n..];
      ValueAppend(b[..n], b[n..]);
      Pow2Small();
      if n < 8 {
        assert b[n..] == [];
        NoValue();
      }
      NumberFirst(ToBytes(b));
      assert ToBytes(b)[1..] == ToBytes(b[n..]);
    }
  }

  lemma NoValue()
    ensures Value([]) == 0 && Pow2(0) == 1
  {
  }

  lemma {:induction false} BytesDrop(b: seq<bool>, k: nat)
    requires 8 * k <= |b|
    ensures k <= |ToBytes(b)| && ToBytes(b)[k..] == ToBytes(b[8 * k..])
    decreases k
  {
    BytesLength(b);
    if k == 0 {
      assert b[8 * 0..] == b;
    } else {
      BytesDrop(b[8..], k - 1);
      assert b[8..][8 * (k - 1)..] == b[8 * k..];
      assert ToBytes(b)[k..] == ToBytes(b[8..])[k - 1..];
    }
  }

  /** The bits from `at` on, as a number. */
  lemma Cut(b: seq<bool>, at: nat, w: nat)
    requires at + w <= |b|
    ensures (Value(b) / Pow2(at)) % Pow2(w) == Value(b[at..at + w])
  {
    hide Value, Pow2;
    var x, y, z := b[..at], b[at..at + w], b[at + w..];
    assert b == x + (y + z);
    ValueAppend(x, y + z);
    ValueAppend(y, z);
    ValueBound(x);
    ValueBound(y);
    DivUnique(Value(b), Pow2(at), Value(y + z), Value(x));
    DivUnique(Value(y + z), Pow2(w), Value(z), Value(y));
  }

  // ---- What an encoder does ----

  /** The first code that stands for a longer string. */
  function Base(block: bool): nat {
    if block then 257 else 256
  }

  /** From `w` bits on, the least width with more than `n` codes, or `max`. */
  function WidthFor(n: nat, w: nat, max: nat): nat
    decreases max - w
  {
    if w < max && n >= Pow2(w) then WidthFor(n, w + 1, max) else w
  }

  /** The width of a code behind `i` others (since the last clear code): the
      decoder has made `i - 1` entries. */
  function Width(i: nat, block: bool, max: nat): nat {
    if i == 0 then 9 else WidthFor(Base(block) + i - 1, 9, max)
  }

  /** The bits of the codes, of which the first is behind `i` others since the
      last clear code and behind `taken` others in its group of eight. */
  function Layout(codes: seq<nat>, i: nat, taken: nat, block: bool, max: nat): seq<bool>
    requires taken < 8
    decreases |codes|, 1
  {
    if codes == [] then []
    else CodeBits(codes[0], Width(i, block, max)) + Behind(codes, i, taken, block, max)
  }

  /** What follows the first code: its group is filled up where the width changes
      and after a clear code. */
  function Behind(codes: seq<nat>, i: nat, taken: nat, block: bool, max: nat): seq<bool>
    requires codes != [] && taken < 8
    decreases |codes|, 0
  {
    var w, rest := Width(i, block, max), codes[1..];
    if block && codes[0] == 256 then Fill(rest, w, taken) + Layout(rest, 0, 0, block, max)
    else if Width(i + 1, block, max) != w then Fill(rest, w, taken) + Layout(rest, i + 1, 0, block, max)
    else Layout(rest, i + 1, (taken + 1) % 8, block, max)
  }

  /** The rest of the group after one more code, if there is anything to follow. */
  function Fill(rest: seq<nat>, w: nat, taken: nat): seq<bool>
    requires taken < 8
  {
    if rest == [] then [] else Zeros((7 - taken) * w)
  }

  /** Code `code` stands for `text`, when the codes since the last clear code
      stood for `before`: a byte, or one of those texts and the first byte
      of the next, which may be that of `text` itself. */
  predicate StandsFor(code: nat, text: seq<Byte>, before: seq<seq<Byte>>, block: bool, max: nat) {
    text != [] &&
    if code < 256 then text == [code]
    else
      var j := code - Base(block);
      0 <= j < |before| && code < Pow2(max) &&
      var next := if j + 1 < |before| then before[j + 1] else text;
      next != [] && text == before[j] + [next[0]]
  }

  /** The codes spell the texts; code 256 clears, in block mode. */
  predicate Spells(codes: seq<nat>, texts: seq<seq<Byte>>, before: seq<seq<Byte>>, block: bool, max: nat)
    decreases |codes|
  {
    |codes| == |texts| &&
    if codes == [] then true
    else if block && codes[0] == 256 then texts[0] == [] && Spells(codes[1..], texts[1..], [], block, max)
    else StandsFor(codes[0], texts[0], before, block, max) &&
         Spells(codes[1..], texts[1..], before + [texts[0]], block, max)
  }

  function Joined(texts: seq<seq<Byte>>): seq<Byte>
    decreases |texts|
  {
    if texts == [] then [] else texts[0] + Joined(texts[1..])
  }

  // ---- Widths ----

  lemma {:induction false} WidthForFacts(n: nat, w: nat, max: nat)
    requires w <= max
    ensures var r := WidthFor(n, w, max);
            w <= r <= max && (r < max ==> n < Pow2(r)) &&
            WidthFor(n + 1, w, max) == if r < max && n + 1 >= Pow2(r) then r + 1 else r
    decreases max - w
  {
    if w < max {
      if n >= Pow2(w) {
        WidthForFacts(n, w + 1, max);
      } else if n + 1 >= Pow2(w) && w + 1 < max {
        assert Pow2(w + 1) == 2 * Pow2(w);
      }
    }
  }

  /** The table has `i - 1` entries made when the code is read, as long as
      there is room for them. */
  lemma WidthFacts(i: nat, block: bool, max: nat)
    requires 9 <= max
    ensures var w, n := Width(i, block, max), Base(block) + if i == 0 then 0 else i - 1;
            9 <= w <= max && (w < max ==> n < Pow2(w)) && (w == max ==> Pow2(w) == Pow2(max)) &&
            Width(i + 1, block, max) == if i > 0 && w < max && n + 1 >= Pow2(w) then w + 1 else w
  {
    Pow2Small();
    WidthForFacts(Base(block) + if i == 0 then 0 else i - 1, 9, max);
    if i == 0 {
      assert Base(block) < Pow2(9);
      assert Width(1, block, max) == WidthFor(Base(block), 9, max);
    }
  }

  // ---- Reading it ----

  /** The table and the last string, when the codes since the last clear code
      stood for `before`. */
  ghost predicate Knows(s: State, before: seq<seq<Byte>>, block: bool, max: nat) {
    256 <= |s.table| == Min(Base(block) + Minus(|before|, 1), Pow2(max)) &&
    (forall c :: 0 <= c < 256 ==> s.table[c] == [c]) &&
    (forall j :: 0 <= j < |before| ==> before[j] != []) &&
    (forall j :: 0 <= j < |s.table| - Base(block) ==> s.table[Base(block) + j] == before[j] + [before[j + 1][0]]) &&
    s.last == if before == [] then [] else before[|before| - 1]
  }

  /** The state about to read `codes`; `b` are the bits of its group used. */
  ghost predicate Reads(s: State, b: seq<bool>, codes: seq<nat>, before: seq<seq<Byte>>, block: bool, max: nat) {
    s.taken < 8 && s.bits == Width(|before|, block, max) && |b| == s.Bit() &&
    s.group == ToBytes(b + Layout(codes, |before|, s.taken, block, max)) && Knows(s, before, block, max)
  }

  /** The next code is there, and it is the one written. */
  lemma CodeIs(s: State, b: seq<bool>, c: nat, behind: seq<bool>)
    requires s.bits >= 9 && |b| == s.Bit() && c < Pow2(s.bits) && s.group == ToBytes(b + CodeBits(c, s.bits) + behind)
    ensures |s.group| > s.Used() && 8 * |s.group| >= s.Bit() + s.bits && Code(s) == c
  {
    hide Value, Pow2, ToBytes, CodeBits, State.Bit;
    var all := b + CodeBits(c, s.bits) + behind;
    BytesLength(all);
    BytesNumber(all);
    Cut(all, |b|, s.bits);
    assert all[|b|..|b| + s.bits] == CodeBits(c, s.bits);
    CodeBitsValue(c, s.bits);
  }

  /** Past a code, the state is at what follows it. */
  lemma AdvanceIs(s: State, b: seq<bool>, here: seq<bool>, behind: seq<bool>) returns (b': seq<bool>)
    requires s.taken < 8 && |b| == s.Bit() && |here| == s.bits && s.group == ToBytes(b + here + behind)
    requires 8 * |s.group| >= s.Bit() + s.bits
    ensures var n := Advance(s);
            |b'| == n.Bit() && n.group == ToBytes(b' + behind) && n.taken == (s.taken + 1) % 8 && n.bits == s.bits
  {
    hide ToBytes, State.Bit;
    NextBit(s);
    if s.taken == 7 {
      b' := [];
      BytesDrop(b + here + behind, s.bits);
      assert (b + here + behind)[8 * s.bits..] == behind;
      assert [] + behind == behind;
    } else {
      b' := b + here;
    }
  }

  /** Skipping the rest of a group that was filled up. */
  lemma SkipFill(s: State, b: seq<bool>, rest: seq<nat>, taken: nat, behind: seq<bool>)
    requires taken < 8 && s.taken == (taken + 1) % 8 && s.bits > 0 && |b| == s.Bit()
    requires s.group == ToBytes(b + (Fill(rest, s.bits, taken) + behind)) && (rest == [] ==> behind == [])
    ensures Skip(s).group == ToBytes(behind)
  {
    hide ToBytes;
    var f := Fill(rest, s.bits, taken);
    if s.taken == 0 {
      assert |f| == 0 && |b| == 0;
      assert b + (f + behind) == behind;
    } else if rest == [] {
      assert b + (f + behind) == b;
      BytesLength(b);
      BitAtMost(s);
      BytesLength([]);
      assert Skip(s).group == [] && ToBytes(behind) == [];
    } else {
      NextFill(s.taken, s.bits);
      BytesLength(b + (f + behind));
      BytesDrop(b + (f + behind), s.bits);
      assert (b + (f + behind))[8 * s.bits..] == behind;
    }
  }

  lemma NextFill(taken: nat, bits: nat)
    requires 0 < taken < 8
    ensures taken * bits + (8 - taken) * bits == 8 * bits
  {
  }

  lemma {:induction false} Pow2Grows(m: nat, n: nat)
    requires m <= n
    ensures Pow2(m) <= Pow2(n)
    decreases n
  {
    if m < n {
      Pow2Grows(m, n - 1);
    }
  }

  /** A code that is not a clear code: what it stands for is found. */
  lemma LookupIs(n: State, code: nat, text: seq<Byte>, before: seq<seq<Byte>>, block: bool, max: nat)
    requires n.Valid(block) && n.bits <= max && Knows(n, before, block, max)
    requires StandsFor(code, text, before, block, max) && !(block && code == 256)
    ensures Lookup(n, code) == text && text != []
  {
    hide Pow2;
  }

  /** The decoder makes the entry that the encoder counts on. */
  lemma LearnIs(n: State, text: seq<Byte>, before: seq<seq<Byte>>, block: bool, max: nat)
    requires n.Valid(block) && n.bits <= max && Knows(n, before, block, max)
    requires n.bits < max ==> |n.table| < Pow2(n.bits)
    requires text != []
    ensures Knows(Learn(n, text), before + [text], block, max)
  {
    hide Pow2;
    Pow2Grows(n.bits, max);
    var t := Learn(n, text);
    var now := before + [text];
    forall j | 0 <= j < |t.table| - Base(block) ensures t.table[Base(block) + j] == now[j] + [now[j + 1][0]] {
      if j < |n.table| - Base(block) {
        assert now[j] == before[j] && now[j + 1] == before[j + 1];
      } else {
        assert now[j] == before[|before| - 1] && now[j + 1] == text;
      }
    }
  }

  lemma ClearIs(n: State, max: nat)
    requires n.bits > 0 && 9 <= max <= 16
    ensures Knows(Clear(n), [], true, max)
  {
    Pow2Grows(9, max);
    Pow2Small();
  }

  /** Codes fit in their width. */
  lemma CodeFits(code: nat, text: seq<Byte>, before: seq<seq<Byte>>, block: bool, max: nat)
    requires 9 <= max && ((block && code == 256) || StandsFor(code, text, before, block, max))
    ensures code < Pow2(Width(|before|, block, max))
  {
    hide Pow2, Width;
    WidthFacts(|before|, block, max);
    Pow2Grows(9, Width(|before|, block, max));
    Pow2Small();
  }

  /** A clear code behind the bits `b`: the decoder is as at the start. */
  lemma AfterClear(n: State, b: seq<bool>, codes: seq<nat>, i: nat, taken: nat, max: nat)
    requires n.Valid(true) && 9 <= max <= 16 && taken < 8 && codes != [] && codes[0] == 256
    requires |b| == n.Bit() && n.taken == (taken + 1) % 8 && n.bits == Width(i, true, max)
    requires n.group == ToBytes(b + Behind(codes, i, taken, true, max))
    ensures Reads(Widen(Clear(n), max), [], codes[1..], [], true, max)
  {
    hide ToBytes, Knows, Skip, Pow2;
    var behind := Layout(codes[1..], 0, 0, true, max);
    SkipFill(n, b, codes[1..], taken, behind);
    SkipShape(n);
    ClearIs(n, max);
    Pow2Small();
    assert |Clear(n).table| == 257;
    assert [] + behind == behind;
  }

  /** Any other code behind the bits `b`: widening finds the next code. */
  lemma AfterText(n: State, b: seq<bool>, codes: seq<nat>, i: nat, taken: nat, before: seq<seq<Byte>>, block: bool, max: nat)
    returns (b': seq<bool>)
    requires n.Valid(block) && 9 <= max <= 16 && taken < 8 && codes != [] && !(block && codes[0] == 256)
    requires |b| == n.Bit() && n.taken == (taken + 1) % 8 && n.bits == Width(i, block, max)
    requires n.group == ToBytes(b + Behind(codes, i, taken, block, max))
    requires |before| == i + 1 && Knows(n, before, block, max)
    ensures Reads(Widen(n, max), b', codes[1..], before, block, max)
  {
    hide ToBytes, Skip, Pow2, Width, Fill;
    WidthFacts(i, block, max);
    Pow2Grows(n.bits, max);
    Pow2Small();
    if Width(i + 1, block, max) == n.bits {
      b' := b;
    } else {
      var behind := Layout(codes[1..], i + 1, 0, block, max);
      SkipFill(n, b, codes[1..], taken, behind);
      SkipShape(n);
      b' := [];
      assert [] + behind == behind;
    }
  }

  /** One step of the decoder takes one code, and gives its text. */
  lemma NextIs(s: State, b: seq<bool>, codes: seq<nat>, texts: seq<seq<Byte>>, before: seq<seq<Byte>>, block: bool, max: nat)
    returns (t: State, b': seq<bool>, now: seq<seq<Byte>>)
    requires s.Valid(block) && 9 <= max <= 16 && codes != [] && Spells(codes, texts, before, block, max)
    requires Reads(Widen(s, max), b, codes, before, block, max)
    ensures TakeStep(s, block, max) == Next(t, texts[0])
    ensures Spells(codes[1..], texts[1..], now, block, max) && Reads(Widen(t, max), b', codes[1..], now, block, max)
  {
    hide ToBytes, Skip, Pow2, Width, Fill, Behind, Widen, StandsFor, Code, Lookup, Learn, Clear, Advance, Knows, State.Bit;
    var w := Widen(s, max);
    var c, text, taken := codes[0], texts[0], w.taken;
    var behind := Behind(codes, |before|, taken, block, max);
    WidenValid(s, block, max);
    WidthFacts(|before|, block, max);
    CodeFits(c, text, before, block, max);
    assert b + Layout(codes, |before|, taken, block, max) == b + CodeBits(c, w.bits) + behind;
    CodeIs(w, b, c, behind);
    var used := AdvanceIs(w, b, CodeBits(c, w.bits), behind);
    AdvanceValid(w, block);
    var n := Advance(w);
    if block && c == 256 {
      AfterClear(n, used, codes, |before|, taken, max);
      t, b', now := Clear(n), [], [];
    } else {
      KnowsSame(w, before, block, max);
      TableRoom(n, before, block, max);
      LookupIs(n, c, text, before, block, max);
      LearnIs(n, text, before, block, max);
      LookupFound(n, block, c);
      t, now := Learn(n, text), before + [text];
      LearnShape(n, text);
      b' := AfterText(t, used, codes, |before|, taken, now, block, max);
    }
  }

  lemma KnowsSame(w: State, before: seq<seq<Byte>>, block: bool, max: nat)
    requires w.taken < 8 && 8 * |w.group| >= w.Bit() + w.bits && Knows(w, before, block, max)
    ensures Knows(Advance(w), before, block, max)
  {
    hide State.Bit;
  }

  lemma TableRoom(n: State, before: seq<seq<Byte>>, block: bool, max: nat)
    requires 9 <= max && n.bits == Width(|before|, block, max) && Knows(n, before, block, max)
    ensures n.bits < max ==> |n.table| < Pow2(n.bits)
  {
    hide Width, Pow2;
    WidthFacts(|before|, block, max);
  }

  lemma LearnShape(n: State, text: seq<Byte>)
    requires text != []
    ensures var t := Learn(n, text); t.group == n.group && t.taken == n.taken && t.bits == n.bits && t.Bit() == n.Bit()
  {
  }

  lemma AtEnd(s: State, b: seq<bool>, before: seq<seq<Byte>>, block: bool, max: nat)
    requires s.bits > 0 && s.taken < 8 && Reads(Widen(s, max), b, [], before, block, max)
    ensures TakeStep(s, block, max) == End
  {
    hide Widen, ToBytes, Knows;
    BytesLength(b);
    assert b + [] == b;
  }

  /** Decoding what is left of a file gives what is left of the data. */
  lemma {:induction false} DecodeIs(s: State, b: seq<bool>, codes: seq<nat>, texts: seq<seq<Byte>>,
                                    before: seq<seq<Byte>>, block: bool, max: nat)
    requires s.Valid(block) && 9 <= max <= 16 && Spells(codes, texts, before, block, max)
    requires Reads(Widen(s, max), b, codes, before, block, max)
    ensures Decode(s, block, max) == Plain(Joined(texts))
    decreases |codes|
  {
    hide TakeStep, Reads, Widen, Spells, State.Bit;
    if codes == [] {
      AtEnd(s, b, before, block, max);
      assert texts == [] by { SpellsNone(texts, before, block, max); }
    } else {
      assert texts != [] by { SpellsSome(codes, texts, before, block, max); }
      var t, b', now := NextIs(s, b, codes, texts, before, block, max);
      StepValid(s, block, max);
      DecodeIs(t, b', codes[1..], texts[1..], now, block, max);
    }
  }

  lemma SpellsNone(texts: seq<seq<Byte>>, before: seq<seq<Byte>>, block: bool, max: nat)
    requires Spells([], texts, before, block, max)
    ensures texts == []
  {
  }

  lemma SpellsSome(codes: seq<nat>, texts: seq<seq<Byte>>, before: seq<seq<Byte>>, block: bool, max: nat)
    requires codes != [] && Spells(codes, texts, before, block, max)
    ensures texts != []
  {
  }

  // ---- The round trip ----

  lemma FirstNine(g: seq<Byte>)
    requires |g| >= 2
    ensures (Number(g) / Pow2(0)) % Pow2(9) == g[0] as int + 256 * (g[1] as int % 2)
  {
    hide Number;
    NumberFirst(g);
    NumberFirst(g[1..]);
    Pow2Small();
    NinthBit(g[0], g[1], Number(g[1..][1..]));
  }

  lemma NinthBit(a: Byte, b: Byte, n: nat)
    ensures (a as int + 256 * (b as int + 256 * n)) % 512 == a as int + 256 * (b as int % 2)
  {
    var h, l := b as int / 2, b as int % 2;
    assert a as int + 256 * (b as int + 256 * n) == 512 * (h + 128 * n) + (a as int + 256 * l);
  }

  /** The first code is read by itself. */
  lemma FirstCode(c: nat, behind: seq<bool>)
    requires c < 512
    ensures var g := ToBytes(CodeBits(c, 9) + behind);
            |g| >= 2 && g[0] as int + 256 * (g[1] as int % 2) == c
  {
    hide ToBytes, Number, Pow2, Value;
    var l := CodeBits(c, 9) + behind;
    BytesLength(l);
    BytesNumber(l);
    Cut(l, 0, 9);
    assert l[0..9] == CodeBits(c, 9);
    Pow2Small();
    CodeBitsValue(c, 9);
    FirstNine(ToBytes(l));
  }

  /** The file that the codes make, after the two magic bytes. */
  function File(codes: seq<nat>, block: bool, max: nat): seq<Byte>
    requires 9 <= max <= 16
  {
    [max + if block then 128 else 0] + ToBytes(Layout(codes, 0, 0, block, if max == 9 then 10 else max))
  }

  lemma AfterFirst(codes: seq<nat>, texts: seq<seq<Byte>>, block: bool, max: nat)
    requires 9 <= max <= 16 && codes != [] && codes[0] < 256 && Spells(codes, texts, [], block, max)
    ensures var first: seq<Byte> := [codes[0]];
            var s := State(ToBytes(Layout(codes, 0, 0, block, max)), 1, 9, Literals(block), first);
            Pow2(9) == 512 && s.Valid(block) && Decode(s, block, max) == Plain(Joined(texts[1..])) && texts[0] == first
  {
    hide Decode, ToBytes, Pow2, CodeBits;
    Pow2Small();
    Pow2Grows(9, max);
    WidthFacts(0, block, max);
    var first: seq<Byte> := [codes[0]];
    var l := Layout(codes, 0, 0, block, max);
    var s := State(ToBytes(l), 1, 9, Literals(block), first);
    var b := CodeBits(codes[0], 9);
    assert Behind(codes, 0, 0, block, max) == Layout(codes[1..], 1, 1, block, max);
    assert l == b + Behind(codes, 0, 0, block, max);
    BytesLength(l);
    assert [] + [first] == [first];
    DecodeIs(s, b, codes[1..], texts[1..], [first], block, max);
  }

  lemma FlagsOf(max: nat)
    requires 9 <= max <= 16
    ensures max % 32 == max && (max + 128) % 32 == max && (max / 32) % 4 == 0 && ((max + 128) / 32) % 4 == 0
  {
  }

  /** Whatever codes an encoder chose to spell the data, the file means the
      data: for either mode, any widths, clear codes anywhere but at the very start
      of the file, where they are refused. */
  lemma RoundTrip(codes: seq<nat>, texts: seq<seq<Byte>>, block: bool, max: nat)
    requires 9 <= max <= 16
    requires Spells(codes, texts, [], block, if max == 9 then 10 else max)
    ensures Meaning(File(codes, block, max)) ==
            if codes != [] && codes[0] == 256 then Corrupt else Plain(Joined(texts))
  {
    hide Decode, ToBytes, Literals, CodeBits, Pow2, Number;
    var m := if max == 9 then 10 else max;
    var l := Layout(codes, 0, 0, block, m);
    var file := File(codes, block, max);
    assert file[1..] == ToBytes(l);
    BytesLength(l);
    FlagsOf(max);
    if codes != [] {
      WidthFacts(0, block, m);
      assert file[2] == ToBytes(l)[1];
      FirstCode(codes[0], Behind(codes, 0, 0, block, m));
      if codes[0] < 256 {
        AfterFirst(codes, texts, block, m);
      }
    }
  }

  /** `unlzw` gives back what an encoder was given. */
  method UncompressIsRight(input: Input, output: Output, ghost codes: seq<nat>, ghost texts: seq<seq<Byte>>,
                           ghost block: bool, ghost max: nat) returns (ok: bool)
    requires 9 <= max <= 16 && Spells(codes, texts, [], block, if max == 9 then 10 else max)
    requires input.Valid() && output.Valid() && input.in_buf != output.out_buf
    requires output.outcnt == 0 && output.written == [] && input.Rest() == File(codes, block, max)
    modifies input, input.in_buf, output, output.out_buf
    ensures ok <==> codes == [] || codes[0] != 256
    ensures ok ==> output.written == Joined(texts)
  {
    hide Spells, File, Meaning, Joined, Input.Rest;
    RoundTrip(codes, texts, block, max);
    ok := Unlzw(input, output);
  }

  // ---- Some files ----

  /** Without the clear codes. */
  function Bytes(codes: seq<nat>): seq<Byte>
    requires forall k :: 0 <= k < |codes| ==> codes[k] <= 256
    decreases |codes|
  {
    if codes == [] then []
    else (if codes[0] == 256 then [] else [codes[0] as Byte]) + Bytes(codes[1..])
  }

  lemma {:induction false} BytesSpelled(codes: seq<nat>, before: seq<seq<Byte>>, block: bool, max: nat)
    returns (texts: seq<seq<Byte>>)
    requires forall k :: 0 <= k < |codes| ==> codes[k] < 256 || (block && codes[k] == 256)
    ensures Spells(codes, texts, before, block, max) && Joined(texts) == Bytes(codes)
    decreases |codes|
  {
    if codes == [] {
      texts := [];
    } else if codes[0] == 256 {
      var rest := BytesSpelled(codes[1..], [], block, max);
      texts := [[]] + rest;
      assert texts[1..] == rest;
    } else {
      var rest := BytesSpelled(codes[1..], before + [[codes[0] as Byte]], block, max);
      texts := [[codes[0] as Byte]] + rest;
      assert texts[1..] == rest;
    }
  }

  /** Bytes written one by one, with clear codes between them in block mode, mean
      themselves: so every data has a file. */
  lemma BytesMeanThemselves(codes: seq<nat>, block: bool, max: nat)
    requires 9 <= max <= 16 && forall k :: 0 <= k < |codes| ==> codes[k] < 256 || (block && codes[k] == 256)
    requires codes != [] ==> codes[0] != 256
    ensures Meaning(File(codes, block, max)) == Plain(Bytes(codes))
  {
    hide Spells, File, Meaning, Joined, Bytes;
    var texts := BytesSpelled(codes, [], block, if max == 9 then 10 else max);
    RoundTrip(codes, texts, block, max);
  }

  lemma OneMore(code: nat, text: seq<Byte>, codes: seq<nat>, texts: seq<seq<Byte>>,
                before: seq<seq<Byte>>, block: bool, max: nat)
    requires StandsFor(code, text, before, block, max) && !(block && code == 256)
    requires Spells(codes, texts, before + [text], block, max)
    ensures Spells([code] + codes, [text] + texts, before, block, max)
    ensures Joined([text] + texts) == text + Joined(texts)
  {
    assert ([code] + codes)[1..] == codes && ([text] + texts)[1..] == texts;
  }

  /** Where code 256 does not clear, it is the first entry made: the first two
      bytes. */
  lemma FirstEntry(a: Byte, b: Byte, max: nat)
    requires 9 <= max <= 16
    ensures Meaning(File([a as int, b as int, 256], false, max)) == Plain([a, b, a, b])
  {
    hide File, Meaning;
    Pow2Grows(9, max);
    Pow2Small();
    var m := if max == 9 then 10 else max;
    OneMore(256, [a, b], [], [], [[a], [b]], false, m);
    assert [[a]] + [[b]] == [[a], [b]];
    OneMore(b, [b], [256], [[a, b]], [[a]], false, m);
    assert [b as int] + [256] == [b as int, 256] && [[b]] + [[a, b]] == [[b], [a, b]];
    OneMore(a, [a], [b as int, 256], [[b], [a, b]], [], false, m);
    assert [a as int] + [b as int, 256] == [a as int, b as int, 256] && [[a]] + [[b], [a, b]] == [[a], [b], [a, b]];
    RoundTrip([a as int, b as int, 256], [[a], [b], [a, b]], false, max);
  }

  /** A repeated byte is spelled with a code that is being made. */
  lemma Repeated(a: Byte, block: bool, max: nat)
    requires 9 <= max <= 16
    ensures Meaning(File([a as int, if block then 257 else 256], block, max)) == Plain([a, a, a])
  {
    hide File, Meaning;
    Pow2Grows(9, max);
    Pow2Small();
    var m := if max == 9 then 10 else max;
    var code := if block then 257 else 256;
    OneMore(code, [a, a], [], [], [[a]], block, m);
    OneMore(a, [a], [code], [[a, a]], [], block, m);
    assert [a as int] + [code] == [a as int, code] && [[a]] + [[a, a]] == [[a], [a, a]];
    RoundTrip([a as int, code], [[a], [a, a]], block, max);
  }

  lemma {:induction false} SameNumber(a: seq<Byte>, b: seq<Byte>)
    requires |a| == |b| && Number(a) == Number(b)
    ensures a == b
    decreases |a|
  {
    if a != [] {
      SameNumber(a[1..], b[1..]);
      assert a == [a[0]] + a[1..] && b == [b[0]] + b[1..];
    }
  }

  lemma ThreeCodes(c: nat, d: nat, e: nat)
    requires c < 512 && d < 512 && e < 512
    ensures var b := ToBytes(CodeBits(c, 9) + (CodeBits(d, 9) + CodeBits(e, 9)));
            |b| == 4 && Number(b) == c + 512 * (d + 512 * e)
  {
    hide Value, Pow2, ToBytes, CodeBits, Number;
    Pow2Small();
    CodeBitsValue(c, 9);
    CodeBitsValue(d, 9);
    CodeBitsValue(e, 9);
    ValueAppend(CodeBits(d, 9), CodeBits(e, 9));
    ValueAppend(CodeBits(c, 9), CodeBits(d, 9) + CodeBits(e, 9));
    BytesNumber(CodeBits(c, 9) + (CodeBits(d, 9) + CodeBits(e, 9)));
    BytesLength(CodeBits(c, 9) + (CodeBits(d, 9) + CodeBits(e, 9)));
  }

  lemma FourBytes(a: Byte, b: Byte, c: Byte, d: Byte)
    ensures Number([a, b, c, d]) == a as int + 256 * (b as int + 256 * (c as int + 256 * (d as int)))
  {
    NumberFirst([a, b, c, d]);
    assert [a, b, c, d][1..] == [b, c, d] && [b, c, d][1..] == [c, d];
    TwoBytes(c, d, 0);
  }

  /** As long as there are few of them, codes have nine bits. */
  lemma LayoutOfThree(c: nat, d: nat, e: nat)
    requires c != 256 && d != 256 && e != 256
    ensures Layout([c, d, e], 0, 0, true, 16) == CodeBits(c, 9) + (CodeBits(d, 9) + CodeBits(e, 9))
  {
    hide CodeBits, Pow2;
    Pow2Small();
    assert forall i :: 0 <= i < 4 ==> Width(i, true, 16) == 9;
    assert [c, d, e][1..] == [d, e] && [d, e][1..] == [e] && [e][1..] == [];
    assert Behind([e], 2, 2, true, 16) == [];
    assert Layout([e], 2, 2, true, 16) == CodeBits(e, 9);
    assert Behind([d, e], 1, 1, true, 16) == CodeBits(e, 9);
    assert Behind([c, d, e], 0, 0, true, 16) == Layout([d, e], 1, 1, true, 16);
  }

  lemma FourSpelled()
    ensures Spells([0x61, 257, 0x61], [[0x61], [0x61, 0x61], [0x61]], [], true, 16)
    ensures Joined([[0x61], [0x61, 0x61], [0x61]]) == [0x61, 0x61, 0x61, 0x61]
  {
    var a: seq<Byte>, aa: seq<Byte> := [0x61], [0x61, 0x61];
    Pow2Grows(9, 16);
    Pow2Small();
    OneMore(0x61, a, [], [], [a] + [aa], true, 16);
    OneMore(257, aa, [0x61] + [], [a] + [], [a], true, 16);
    OneMore(0x61, a, [257] + ([0x61] + []), [aa] + ([a] + []), [], true, 16);
    assert [0x61] + ([257] + ([0x61] + [])) == [0x61, 257, 0x61];
    assert [a] + ([aa] + ([a] + [])) == [a, aa, a];
    assert [] + [a] == [a];
  }

  /** The five bytes that stand for "aaaa": code 257 is the first two. */
  lemma FourTimes()
    ensures Meaning([0x90, 0x61, 0x02, 0x86, 0x01]) == Plain([0x61, 0x61, 0x61, 0x61])
  {
    hide Meaning, Layout, ToBytes, CodeBits, Number, Spells, Joined;
    LayoutOfThree(0x61, 257, 0x61);
    ThreeCodes(0x61, 257, 0x61);
    FourBytes(0x61, 0x02, 0x86, 0x01);
    SameNumber(ToBytes(Layout([0x61, 257, 0x61], 0, 0, true, 16)), [0x61, 0x02, 0x86, 0x01]);
    assert File([0x61, 257, 0x61], true, 16) == [0x90, 0x61, 0x02, 0x86, 0x01];
    FourSpelled();
    RoundTrip([0x61, 257, 0x61], [[0x61], [0x61, 0x61], [0x61]], true, 16);
  }
}
