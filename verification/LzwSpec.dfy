/** The Unix compress (LZW) format: what a stream of codes means. Codes are cut
    from the little-endian number that the bytes make, and the table is kept
    as the strings themselves. */
module LzwSpec {
  import opened Basics

  // ---- Little-endian numbers ----

  /** The number whose base-256 digits are `s`, least significant first. */
  function Number(s: seq<Byte>): nat
    decreases |s|
  {
    if s == [] then 0 else s[0] + 256 * Number(s[1..])
  }

  lemma {:induction false} Pow2Add(m: nat, n: nat)
    ensures Pow2(m + n) == Pow2(m) * Pow2(n)
  {
    if m > 0 {
      Pow2Add(m - 1, n);
      assert 2 * (Pow2(m - 1) * Pow2(n)) == (2 * Pow2(m - 1)) * Pow2(n);
    }
  }

  lemma Pow2Small()
    ensures Pow2(1) == 2 && Pow2(2) == 4 && Pow2(3) == 8 && Pow2(4) == 16 && Pow2(5) == 32
    ensures Pow2(6) == 64 && Pow2(7) == 128 && Pow2(8) == 256 && Pow2(9) == 512 && Pow2(16) == 65536
  {
    assert Pow2(12) == 16 * Pow2(8);
  }

  lemma {:induction false} NumberAppend(a: seq<Byte>, b: seq<Byte>)
    ensures Number(a + b) == Number(a) + Pow2(8 * |a|) * Number(b)
    decreases |a|
  {
    hide Pow2, Number;
    if a == [] {
      assert a + b == b;
      NumberOfNone();
    } else {
      assert (a + b)[1..] == a[1..] + b && (a + b)[0] == a[0];
      NumberFirst(a);
      NumberFirst(a + b);
      NumberAppend(a[1..], b);
      Pow2Add(8, 8 * |a[1..]|);
      Pow2Small();
      Carried(Pow2(8 * |a[1..]|), Number(b));
    }
  }

  lemma NumberFirst(s: seq<Byte>)
    requires s != []
    ensures Number(s) == s[0] + 256 * Number(s[1..])
  {
  }

  lemma NumberOfNone()
    ensures Number([]) == 0 && Pow2(0) == 1
  {
  }

  lemma Carried(p: nat, n: nat)
    ensures 256 * (p * n) == (256 * p) * n
  {
  }

  lemma {:induction false} NumberBound(s: seq<Byte>)
    ensures Number(s) < Pow2(8 * |s|)
    decreases |s|
  {
    if s != [] {
      NumberBound(s[1..]);
      Pow2Add(8, 8 * |s[1..]|);
      Pow2Small();
    }
  }

  // ---- The format ----

  /** `Corrupt` is a stream that the decoder must refuse. */
  datatype Result = Plain(data: seq<Byte>) | Corrupt

  function Prefixed(s: seq<Byte>, r: Result): Result {
    match r
    case Plain(data) => Plain(s + data)
    case Corrupt => Corrupt
  }

  /** `taken` codes of `group`, the current run of eight codes of `bits` bits and
      what follows it, have been used. `last` is the string of the previous
      code, empty when there is none (after a clear code). */
  datatype State = State(group: seq<Byte>, taken: nat, bits: nat, table: seq<seq<Byte>>, last: seq<Byte>) {
    ghost predicate Valid(block: bool) {
      9 <= bits <= 16 && taken < 8 && Bit() <= 8 * |group| &&
      (if block then 257 else 256) <= |table| <= Pow2(bits) && (!block ==> last != []) &&
      forall c :: 0 <= c < |table| && (block ==> c != 256) ==> table[c] != []
    }

    /** The position of the next code, in bits. */
    function Bit(): nat { taken * bits }

    /** Bytes of the group that have been touched. */
    function Used(): nat { (Bit() + 7) / 8 }

    /** Bits not yet used. */
    function Remaining(): int { 8 * |group| - Bit() }
  }

  /** The table of single-byte strings; code 256 is taken if it means "clear". */
  function Literals(block: bool): (t: seq<seq<Byte>>)
    ensures |t| == if block then 257 else 256
    ensures forall c :: 0 <= c < 256 ==> t[c] == [c]
  {
    seq(256, c requires 0 <= c < 256 => [c as Byte]) + if block then [[]] else []
  }

  /** Skip the rest of the current group, or what there is of it. */
  function Skip(s: State): State
    requires s.bits > 0
  {
    if s.taken == 0 then s else s.(group := s.group[Min(s.bits, |s.group|)..], taken := 0)
  }

  /** The next code is cut off the number that the group makes. */
  function Code(s: State): nat {
    (Number(s.group) / Pow2(s.Bit())) % Pow2(s.bits)
  }

  /** After a code: the next one, perhaps in a new group. */
  function Advance(s: State): State
    requires s.taken < 8 && 8 * |s.group| >= s.Bit() + s.bits
  {
    if s.taken == 7 then s.(group := s.group[s.bits..], taken := 0)
    else s.(taken := s.taken + 1)
  }

  /** Codes widen when the table is full for their width. */
  function Widen(s: State, max: nat): State
    requires s.bits > 0
  {
    if |s.table| >= Pow2(s.bits) && s.bits < max then Skip(s).(bits := s.bits + 1) else s
  }

  /** The string of a code, if it has one: an entry of the table, or for the
      next free code the previous string followed by its own first byte. */
  function Lookup(s: State, code: nat): (str: seq<Byte>) {
    if code < |s.table| && (s.last != [] || code < 256) then s.table[code]
    else if code == |s.table| && s.last != [] then s.last + [s.last[0]]
    else []
  }

  /** Enter the previous string with one more byte, and remember the new one. */
  function Learn(s: State, str: seq<Byte>): State
    requires str != []
  {
    if s.last == [] || |s.table| >= Pow2(s.bits) then s.(last := str)
    else s.(table := s.table + [s.last + [str[0]]], last := str)
  }

  function Clear(s: State): State
    requires s.bits > 0
  {
    Skip(s).(bits := 9, table := Literals(true), last := [])
  }

  /** One code: the end of the data, an error, or some output and a new state. */
  datatype Step = End | Bad | Next(state: State, out: seq<Byte>)

  function TakeStep(s: State, block: bool, max: nat): Step
    requires 0 < s.bits && s.taken < 8
  {
    var w := Widen(s, max);
    if |w.group| <= w.Used() then End
    else if 8 * |w.group| < w.Bit() + w.bits then Bad
    else
      var code, n := Code(w), Advance(w);
      if block && code == 256 then Next(Clear(n), [])
      else
        var str := Lookup(n, code);
        if str == [] then Bad else Next(Learn(n, str), str)
  }

  lemma AdvanceValid(w: State, block: bool)
    requires w.Valid(block) && 8 * |w.group| >= w.Bit() + w.bits
    ensures Advance(w).Valid(block) && Advance(w).Remaining() == w.Remaining() - w.bits
  {
    hide State.Bit;
    NextBit(w);
  }

  lemma NextBit(w: State)
    requires w.taken < 8
    ensures w.(taken := w.taken + 1).Bit() == w.Bit() + w.bits
    ensures w.taken == 7 ==> w.Bit() + w.bits == 8 * w.bits
    ensures forall g :: w.(group := g, taken := 0).Bit() == 0
  {
    assert (w.taken + 1) * w.bits == w.taken * w.bits + w.bits;
  }

  lemma SkipValid(s: State, block: bool)
    requires s.Valid(block)
    ensures Skip(s).Valid(block) && Skip(s).Remaining() <= s.Remaining()
  {
    hide State.Bit;
    var k := Skip(s);
    assert k.taken == 0 ==> k.Bit() == 0 by { NextBit(k.(taken := 0)); }
    BitAtMost(s);
  }

  lemma BitAtMost(s: State)
    requires s.taken < 8
    ensures s.Bit() <= 7 * s.bits
  {
    assert 7 * s.bits == s.taken * s.bits + (7 - s.taken) * s.bits && (7 - s.taken) * s.bits >= 0;
  }

  lemma LookupFound(s: State, block: bool, code: nat)
    requires s.Valid(block) && Lookup(s, code) != []
    ensures Learn(s, Lookup(s, code)).Valid(block)
    ensures Learn(s, Lookup(s, code)).Remaining() == s.Remaining()
  {
  }

  /** Steps keep the state valid and use up at least one code's width. */
  lemma StepValid(s: State, block: bool, max: nat)
    requires s.Valid(block) && max <= 16
    requires TakeStep(s, block, max).Next?
    ensures TakeStep(s, block, max).state.Valid(block)
    ensures TakeStep(s, block, max).state.Remaining() < s.Remaining()
  {
    hide Skip, Advance, Code, Lookup, Learn, Clear;
    var w := Widen(s, max);
    WidenValid(s, block, max);
    AdvanceValid(w, block);
    var n, code := Advance(w), Code(w);
    if block && code == 256 {
      ClearValid(n);
    } else {
      LookupFound(n, block, code);
    }
  }

  lemma WidenValid(s: State, block: bool, max: nat)
    requires s.Valid(block) && max <= 16
    ensures Widen(s, max).Valid(block) && Widen(s, max).Remaining() <= s.Remaining()
  {
    hide Skip;
    SkipValid(s, block);
    if |s.table| >= Pow2(s.bits) && s.bits < max {
      var k := Skip(s);
      assert k.bits == s.bits && k.taken == 0 by { SkipShape(s); }
      assert Pow2(s.bits + 1) == 2 * Pow2(s.bits);
    }
  }

  lemma SkipShape(s: State)
    requires s.bits > 0
    ensures var k := Skip(s); k.taken == 0 && k.bits == s.bits && k.table == s.table && k.last == s.last
  {
  }

  lemma ClearValid(s: State)
    requires s.Valid(true)
    ensures Clear(s).Valid(true) && Clear(s).Remaining() <= s.Remaining()
  {
    hide Skip;
    SkipValid(s, true);
    SkipShape(s);
    Pow2Small();
  }

  /** The meaning of the rest of a stream. */
  ghost function Decode(s: State, block: bool, max: nat): Result
    requires s.Valid(block) && max <= 16
    decreases s.Remaining()
  {
    match TakeStep(s, block, max)
    case End => Plain([])
    case Bad => Corrupt
    case Next(t, out) =>
      StepValid(s, block, max);
      Prefixed(out, Decode(t, block, max))
  }

  /** The meaning of a whole file after its two magic bytes: a byte of flags,
      then (unless there is no data) a first code that must be a literal. */
  ghost function Meaning(file: seq<Byte>): Result {
    if file == [] then Corrupt
    else
      var flags := file[0];
      var max := if flags % 32 == 9 then 10 else flags % 32;
      var block := flags >= 128;
      if (flags / 32) % 4 != 0 || max < 9 || max > 16 then Corrupt
      else if |file| == 1 then Plain([])
      else if |file| == 2 || file[2] % 2 == 1 then Corrupt
      else
        Pow2Small();
        var first: seq<Byte> := [file[1]];
        Prefixed(first, Decode(State(file[1..], 1, 9, Literals(block), first), block, max))
  }
}
