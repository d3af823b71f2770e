/** The decoder `unlzw` of `examples/pgz.c`, against the format in LzwSpec. */
module Lzw {
  import opened Basics
  import opened Streams
  import opened LzwSpec
  import opened LzwBits

  const TABLE := 65536
  const MATCH := 65282

  // ---- Reading codes ----

  datatype Outcome = AtEnd | Broken | Found

  lemma UsedBounds(w: State, block: bool)
    requires w.Valid(block)
    ensures 8 * (w.Used() as int) - 8 < w.Bit() <= 8 * w.Used()
    ensures w.Used() <= |w.group| && (w.taken == 0 <==> w.Used() == 0) && w.Used() <= w.bits
    ensures w.Bit() + w.bits <= 8 * w.bits
  {
    hide State.Bit;
    BitBounds(w);
  }

  lemma BitBounds(w: State)
    requires w.taken < 8
    ensures w.Bit() <= 7 * w.bits && (if w.taken == 0 then w.Bit() == 0 else w.Bit() >= w.bits)
  {
    assert 7 * w.bits == w.taken * w.bits + (7 - w.taken) * w.bits && (7 - w.taken) * w.bits >= 0;
    if w.taken > 0 {
      assert w.taken * w.bits == w.bits + (w.taken - 1) * w.bits && (w.taken - 1) * w.bits >= 0;
    }
  }

  /** What a reader keeps after a code that ended in byte `n - 1` of the group. */
  lemma ReadDone(w: State, block: bool, n: nat, left: nat, rem: nat, chunk: nat, rest: seq<Byte>)
    requires w.Valid(block) && 0 < n <= |w.group|
    requires 8 * (n - 1) < w.Bit() + w.bits <= 8 * n && left == 8 * n - (w.Bit() + w.bits)
    requires rem == w.group[n - 1] / Pow2(8 - left) && chunk == w.bits - n && rest == w.group[n..]
    ensures At(Advance(w), rest, left, rem, chunk)
  {
    UsedBounds(w, block);
    NextBit(w);
    BitsKept(w.group, w.Bit() + w.bits, n);
    if w.taken == 7 {
      assert n == w.bits && left == 0 && w.group[n - 1] / Pow2(8) == 0 by { Pow2Small(); }
    } else {
      var a := Advance(w);
      assert a.Used() == n && a.Bit() == w.Bit() + w.bits;
    }
  }

  /** A code that ends in the next byte. */
  lemma CodeOne(w: State, block: bool, rest: seq<Byte>, left: nat, rem: nat, chunk: nat)
    requires w.Valid(block) && At(w, rest, left, rem, chunk) && rest != [] && w.bits <= left + 8
    ensures Code(w) == (rem + rest[0] * Pow2(left)) % Pow2(w.bits)
  {
    hide Number, State.Bit;
    var u := w.Used();
    assert w.group[u..u + 1] == [rest[0]];
    TwoBytes(rest[0], 0, left);
    CodeFromBytes(w.group, w.Bit(), w.bits, u, u + 1);
  }

  /** A code that ends in the byte after. */
  lemma CodeTwo(w: State, block: bool, rest: seq<Byte>, left: nat, rem: nat, chunk: nat)
    requires w.Valid(block) && At(w, rest, left, rem, chunk) && |rest| >= 2
    ensures Code(w) == (rem + rest[0] * Pow2(left) + rest[1] * Pow2(left + 8)) % Pow2(w.bits)
  {
    hide Number, State.Bit;
    var u := w.Used();
    assert w.group[u..u + 2] == [rest[0], rest[1]];
    TwoBytes(rest[0], rest[1], left);
    CodeFromBytes(w.group, w.Bit(), w.bits, u, u + 2);
  }

  /** A byte moved up by `n` bits. */
  function Shifted(b: nat, n: nat): nat { b * Pow2(n) }

  /** Get one or two bytes, as the kept bits require, and add them up. */
  method GetBytes(input: Input, bits: nat, left: nat, rem: nat, chunk: nat)
    returns (outcome: Outcome, code: nat, got: int, left': nat, chunk': int)
    requires input.Valid()
    modifies input, input.in_buf
    ensures input.Valid() && chunk' <= chunk
    ensures outcome == AtEnd <==> old(input.Rest()) == []
    ensures outcome == Broken <==> |old(input.Rest())| == 1 && bits > left + 8
    ensures outcome == Found ==>
      var r, n := old(input.Rest()), if bits > left + 8 then 2 else 1;
      input.Rest() == r[n..] && got == r[n - 1] && left' == left + 8 * n && chunk' == chunk - n &&
      code == rem + Shifted(r[0], left) + if n == 2 then Shifted(r[1], left + 8) else 0
  {
    hide Shifted;
    left', chunk', outcome := left, chunk, AtEnd;
    code := rem;
    got := input.Get();
    if input.in_eof {
      return;
    }
    code := code + Shifted(got, left');
    left' := left' + 8;
    chunk' := chunk' - 1;
    if bits > left' {
      got := input.Get();
      if input.in_eof {
        outcome := Broken;
        return;
      }
      code := code + Shifted(got, left');
      left' := left' + 8;
      chunk' := chunk' - 1;
    }
    outcome := Found;
  }

  /** The bits under a mask. */
  function Masked(x: nat, mask: nat): nat { x % (mask + 1) }

  function Quotient(n: nat, p: nat): nat
    requires p > 0
  {
    n / p
  }

  /** The `left` high bits of a byte. */
  function Over(b: Byte, left: nat): nat
    requires left <= 8
  {
    Quotient(b, Pow2(8 - left))
  }

  /** Get a code of `bits` bits. */
  method ReadCode(input: Input, bits: nat, mask: nat, left: nat, rem: nat, chunk: nat,
                  ghost w: State, ghost block: bool)
    returns (outcome: Outcome, code: nat, left': nat, rem': nat, chunk': nat)
    requires input.Valid() && w.Valid(block) && bits == w.bits && mask == Pow2(bits) - 1
    requires At(w, input.Rest(), left, rem, chunk) && chunk < BUF
    modifies input, input.in_buf
    ensures input.Valid()
    ensures chunk' < BUF
    ensures outcome == AtEnd <==> |w.group| <= w.Used()
    ensures outcome == Broken <==> |w.group| > w.Used() && 8 * |w.group| < w.Bit() + w.bits
    ensures outcome == Found ==> code == Code(w) && code <= mask && At(Advance(w), input.Rest(), left', rem', chunk')
  {
    hide State.Valid, State.Bit, State.Used, Code, Advance, Pow2, At, Input.Rest, Masked, Over, Shifted;
    ghost var rest := input.Rest();
    ReadOutcome(w, block, rest, left, rem, chunk);
    ValidBits(w, block);
    chunk', rem', code := chunk, rem, 0;
    if chunk' == 0 {
      chunk' := bits;
    }
    var sum, got, untouched;
    outcome, sum, got, left', untouched := GetBytes(input, bits, left, rem, chunk');
    if outcome == Found {
      CodeRead(w, block, rest, left, rem, chunk);
      FinishBounds(w, block, rest, left, rem, chunk, if bits > left + 8 then 2 else 1);
      code := Masked(sum, mask);
      left' := left' - bits;
      rem' := Over(got, left');
      FinishRead(w, block, rest, left, rem, chunk, if bits > left + 8 then 2 else 1, left', rem', untouched, Advance(w));
      chunk' := untouched;
    }
  }

  /** When the input ends before a code, or in the middle of one. */
  lemma ReadOutcome(w: State, block: bool, rest: seq<Byte>, left: nat, rem: nat, chunk: nat)
    requires w.Valid(block) && At(w, rest, left, rem, chunk)
    ensures rest == [] <==> |w.group| <= w.Used()
    ensures |rest| == 1 && w.bits > left + 8 <==> |w.group| > w.Used() && 8 * |w.group| < w.Bit() + w.bits
  {
    hide State.Bit, State.Used, Number, Pow2, State.Valid;
    UsedBounds(w, block);
    ValidBits(w, block);
    AtRest(w, rest, left, rem, chunk);
  }

  /** The bytes for one code leave less than a byte over. */
  lemma FinishBounds(w: State, block: bool, rest: seq<Byte>, left: nat, rem: nat, chunk: nat, n: nat)
    requires w.Valid(block) && At(w, rest, left, rem, chunk)
    requires n == (if w.bits > left + 8 then 2 else 1) && |rest| >= n
    ensures 0 <= left + 8 * n - w.bits < 8 && 0 <= (if chunk == 0 then w.bits else chunk) - n < w.bits
    ensures w.taken < 8 && 8 * |w.group| >= w.Bit() + w.bits
  {
    hide State.Bit, Number, Pow2, State.Valid, Advance;
    UsedBounds(w, block);
    ValidBits(w, block);
    AtRest(w, rest, left, rem, chunk);
  }

  /** What the reader keeps after them. */
  lemma FinishRead(w: State, block: bool, rest: seq<Byte>, left: nat, rem: nat, chunk: nat, n: nat,
                   left': nat, rem': nat, chunk': nat, a: State)
    requires w.Valid(block) && At(w, rest, left, rem, chunk)
    requires w.taken < 8 && 8 * |w.group| >= w.Bit() + w.bits && a == Advance(w)
    requires n == (if w.bits > left + 8 then 2 else 1) && |rest| >= n
    requires left' < 8 && left' == left + 8 * n - w.bits && chunk' == (if chunk == 0 then w.bits else chunk) - n
    requires rem' == Over(rest[n - 1], left')
    ensures At(a, rest[n..], left', rem', chunk')
  {
    hide State.Bit, Number, Pow2, State.Valid, At, Advance;
    UsedBounds(w, block);
    ValidBits(w, block);
    AtRest(w, rest, left, rem, chunk);
    assert rest[n..] == w.group[w.Used() + n..] && rest[n - 1] == w.group[w.Used() + n - 1];
    ReadDone(w, block, w.Used() + n, left', rem', chunk', rest[n..]);
  }

  /** The sum of the kept bits and the new bytes is the code. */
  lemma CodeRead(w: State, block: bool, rest: seq<Byte>, left: nat, rem: nat, chunk: nat)
    requires w.Valid(block) && At(w, rest, left, rem, chunk) && rest != []
    requires w.bits > left + 8 ==> |rest| >= 2
    ensures var sum := rem + Shifted(rest[0], left) + if w.bits > left + 8 then Shifted(rest[1], left + 8) else 0;
            Code(w) == Masked(sum, Pow2(w.bits) - 1) < Pow2(w.bits)
  {
    hide State.Valid, At, Code, Number, Pow2;
    if w.bits > left + 8 {
      CodeTwo(w, block, rest, left, rem, chunk);
    } else {
      CodeOne(w, block, rest, left, rem, chunk);
    }
  }

  lemma AtRest(w: State, rest: seq<Byte>, left: nat, rem: nat, chunk: nat)
    requires At(w, rest, left, rem, chunk)
    ensures w.Used() <= |w.group| && rest == w.group[w.Used()..] && left == 8 * w.Used() - w.Bit()
    ensures rest != [] ==> chunk == if w.taken == 0 then 0 else w.bits - w.Used()
  {
  }

  /** Drop what is left of the current group: `chunk` bytes, or all there are. */
  method FlushCode(input: Input, chunk: nat) returns (chunk': nat)
    requires input.Valid() && chunk < BUF
    modifies input, input.in_buf
    ensures input.Valid() && chunk' <= chunk && (chunk' == 0 || input.Rest() == [])
    ensures input.Rest() == old(input.Rest())[Min(chunk, |old(input.Rest())|)..]
  {
    chunk' := chunk;
    if chunk' > input.in_left {
      chunk' := chunk' - input.in_left;
      BeyondBuffer(input, chunk);
      hide Input.Rest;
      var got := input.Load();
      if got == 0 {
        return;
      }
      if chunk' > input.in_left {
        chunk' := 0;
        input.in_left := 0;
        input.NothingBuffered();
        return;
      }
    }
    DropBuffered(input, chunk');
    chunk' := 0;
  }

  /** Skipping past the buffer skips into the unread part of the file. */
  lemma BeyondBuffer(input: Input, chunk: nat)
    requires input.Valid() && chunk > input.in_left
    ensures var k, tail := chunk - input.in_left, input.file[input.offset..];
            input.Rest()[Min(chunk, |input.Rest()|)..] == tail[Min(k, |tail|)..]
  {
  }

  method DropBuffered(input: Input, chunk: nat)
    requires input.Valid() && chunk <= input.in_left
    modifies input`in_left, input`in_next
    ensures input.Valid() && input.Rest() == old(input.Rest())[chunk..]
  {
    input.in_left := input.in_left - chunk;
    input.in_next := input.in_next + chunk;
  }

  /** Flushing reaches the start of the next group: what is left of the bytes
      behind those used is what is left of the group. */
  lemma SkippedTo(w: State, used: nat, rest: seq<Byte>, chunk: nat)
    requires used <= w.bits && used <= |w.group| && rest == w.group[used..]
    requires w.taken == 0 ==> used == 0
    requires rest != [] ==> chunk == if w.taken == 0 then 0 else w.bits - used
    ensures w.bits > 0 ==> rest[Min(chunk, |rest|)..] == Skip(w).group
  {
  }

  lemma AtStart(s: State, chunk: nat)
    requires s.taken == 0 && (chunk == 0 || s.group == [])
    ensures At(s, s.group, 0, 0, chunk)
  {
    hide Number, Pow2;
    assert s.Bit() == 0 && s.Used() == 0 && s.group[..0] == [];
    NumberOfNone();
  }

  lemma UsedAt(w: State, block: bool, rest: seq<Byte>, left: nat, rem: nat, chunk: nat)
    requires w.Valid(block) && At(w, rest, left, rem, chunk)
    ensures w.bits > 0 && rest[Min(chunk, |rest|)..] == Skip(w).group
  {
    UsedBounds(w, block);
    SkippedTo(w, w.Used(), rest, chunk);
  }

  // ---- The table ----

  /** The linked table stands for the strings of the format: every entry is a
      smaller entry and one more byte. In block mode entry 256 is not one. */
  ghost predicate Represents(prefix: seq<nat>, suffix: seq<Byte>, end: nat, table: seq<seq<Byte>>, block: bool) {
    |prefix| == |suffix| == TABLE && 256 <= |table| <= TABLE && end < |table| &&
    (forall c :: 0 <= c < 256 ==> table[c] == [c]) &&
    forall c :: 256 <= c <= end && (block ==> c != 256) ==>
      prefix[c] < c && (block ==> prefix[c] != 256) && table[c] == table[prefix[c]] + [suffix[c]]
  }

  /** Stack the string of `code` in reverse, above the `height` bytes there. */
  method Expand(prefix: array<nat>, suffix: array<Byte>, stack: array<Byte>, code: nat, height: nat,
                ghost end: nat, ghost table: seq<seq<Byte>>, ghost block: bool)
    returns (height': nat, final: Byte)
    requires prefix.Length == suffix.Length == TABLE && stack.Length == MATCH && stack != suffix
    requires Represents(prefix[..], suffix[..], end, table, block) && end < |table| <= TABLE
    requires code <= end && (block ==> code != 256) && height <= 1
    modifies stack
    ensures height < height' <= MATCH && stack[..height] == old(stack[..height])
    ensures Reversed(stack[height..height']) == table[code] && final == table[code][0]
  {
    hide Represents, Reversed;
    height' := height;
    var c: nat := code;
    while c >= 256
      invariant height' <= height + 65280
      invariant height <= height' && height' + c <= height + code && c <= end && (block ==> c != 256)
      invariant stack[..height] == old(stack[..height]) && end < |table|
      invariant table[code] == table[c] + Reversed(stack[height..height'])
    {
      EntryIs(prefix[..], suffix[..], end, table, block, c);
      stack[height'] := suffix[c];
      PushReversed(stack[height..height'], suffix[c]);
      assert stack[height..height' + 1] == stack[height..height'] + [suffix[c]];
      height' := height' + 1;
      c := prefix[c];
    }
    LiteralIs(prefix[..], suffix[..], end, table, block, c);
    stack[height'] := c;
    final := c;
    PushReversed(stack[height..height'], c);
    assert stack[height..height' + 1] == stack[height..height'] + [final];
    height' := height' + 1;
  }

  lemma EntryIs(prefix: seq<nat>, suffix: seq<Byte>, end: nat, table: seq<seq<Byte>>, block: bool, c: nat)
    requires Represents(prefix, suffix, end, table, block) && 256 <= c <= end && (block ==> c != 256)
    ensures c < |prefix| && c < |suffix| && end < |table|
    ensures prefix[c] < c && (block ==> prefix[c] != 256) && table[c] == table[prefix[c]] + [suffix[c]]
  {
  }

  lemma LiteralIs(prefix: seq<nat>, suffix: seq<Byte>, end: nat, table: seq<seq<Byte>>, block: bool, c: nat)
    requires Represents(prefix, suffix, end, table, block) && c < 256
    ensures c < |table| && table[c] == [c]
  {
  }

  lemma {:induction false} PushReversed(s: seq<Byte>, b: Byte)
    ensures Reversed(s + [b]) == [b] + Reversed(s)
  {
  }

  /** The decoder's variables stand for a state of the format. After a clear
      code (`s.last == []`) the table is empty and `prev` means nothing. */
  ghost predicate Synced(prefix: seq<nat>, suffix: seq<Byte>, end: nat, mask: nat, bits: nat, prev: nat, final: Byte,
                         s: State, block: bool)
  {
    s.Valid(block) && bits == s.bits && mask == Pow2(bits) - 1 &&
    Represents(prefix, suffix, end, s.table, block) &&
    if s.last == [] then block && end == 255 && bits == 9 && s.table == Literals(true)
    else
      |s.table| == end + 1 && prev <= end && (block ==> prev != 256) &&
      s.table[prev] == s.last && final == s.last[0]
  }

  lemma {:induction false} Pow2Grows(m: nat, n: nat)
    requires m <= n
    ensures Pow2(m) <= Pow2(n)
    decreases n
  {
    if m < n {
      Pow2Grows(m, n - 1);
    }
  }

  lemma MaskFits(s: State, block: bool)
    requires s.Valid(block)
    ensures 512 <= Pow2(s.bits) <= TABLE
  {
    Pow2Grows(9, s.bits);
    Pow2Grows(s.bits, 16);
    Pow2Small();
  }

  /** The source says that its test `prev > end` must be retained. It never
      decides: when the code is the next free one, `prev` is in the table. */
  lemma PrevInTable(prefix: seq<nat>, suffix: seq<Byte>, end: nat, mask: nat, bits: nat, prev: nat, final: Byte,
                    s: State, block: bool, code: nat)
    requires Synced(prefix, suffix, end, mask, bits, prev, final, s, block)
    requires !(block && code == 256)
    ensures code == end + 1 ==> prev <= end
  {
  }

  /** Entering the previous string, extended by `b`, in the linked table. */
  lemma LinkEntry(prefix: seq<nat>, suffix: seq<Byte>, end: nat, mask: nat, bits: nat, prev: nat, final: Byte,
                  s: State, block: bool, code: nat, str: seq<Byte>, prefix': seq<nat>, suffix': seq<Byte>, end': nat)
    requires Synced(prefix, suffix, end, mask, bits, prev, final, s, block)
    requires str != [] && str == Lookup(s, code) && !(block && code == 256) && code <= mask
    requires end < mask ==> end' == end + 1 < TABLE && prefix' == prefix[end' := prev] && suffix' == suffix[end' := str[0]]
    requires end >= mask ==> end' == end && prefix' == prefix && suffix' == suffix
    ensures Synced(prefix', suffix', end', mask, bits, code, str[0], Learn(s, str), block)
  {
    var t := Learn(s, str);
    LookupFound(s, block, code);
    if s.last != [] && end < mask {
      assert t.table[end'] == s.last + [str[0]];
      assert code <= end' && t.table[code] == str;
    }
  }

  lemma LookupSplit(prefix: seq<nat>, suffix: seq<Byte>, end: nat, mask: nat, bits: nat, prev: nat, final: Byte,
                    s: State, block: bool, code: nat)
    requires Synced(prefix, suffix, end, mask, bits, prev, final, s, block)
    requires !(block && code == 256)
    ensures code <= end ==> Lookup(s, code) == s.table[code] != []
    ensures code == end + 1 ==> prev <= end && Lookup(s, code) == s.table[prev] + [final]
    ensures code > end + 1 ==> Lookup(s, code) == []
  {
  }

  /** Stack the string of a code in reverse; false if the code is not valid. */
  method StackString(prefix: array<nat>, suffix: array<Byte>, stack: array<Byte>,
                     code: nat, end: nat, ghost mask: nat, prev: nat, final: Byte,
                     ghost s: State, ghost block: bool, ghost bits: nat)
    returns (ok: bool, height: nat, final': Byte)
    requires prefix.Length == suffix.Length == TABLE && stack.Length == MATCH && stack != suffix
    requires Synced(prefix[..], suffix[..], end, mask, bits, prev, final, s, block)
    requires !(block && code == 256)
    modifies stack
    ensures ok <==> Lookup(s, code) != []
    ensures ok ==> 0 < height <= MATCH && Reversed(stack[..height]) == Lookup(s, code) && final' == Lookup(s, code)[0]
  {
    hide Lookup, Pow2, State.Valid;
    LookupSplit(prefix[..], suffix[..], end, mask, bits, prev, final, s, block, code);
    ok, final', height := true, final, 0;
    var c := code;
    if c > end {
      if c != end + 1 || prev > end {
        ok := false;
        return;
      }
      stack[0] := final;
      height := 1;
      c := prev;
    }
    height, final' := Expand(prefix, suffix, stack, c, height, end, s.table, block);
    if code > end {
      StackedTwice(stack[..height], final);
      assert stack[..height][1..] == stack[1..height];
    } else {
      assert stack[0..height] == stack[..height];
    }
  }

  lemma StackedTwice(stack: seq<Byte>, final: Byte)
    requires stack != [] && stack[0] == final
    ensures Reversed(stack) == Reversed(stack[1..]) + [final]
  {
  }

  /** Put out the string of a code and enter the previous one in the table;
      false if the code is not valid. */
  method ProcessCode(prefix: array<nat>, suffix: array<Byte>, stack: array<Byte>, output: Output,
                     code: nat, end: nat, mask: nat, prev: nat, final: Byte,
                     ghost s: State, ghost block: bool, ghost bits: nat)
    returns (ok: bool, end': nat, final': Byte)
    requires prefix.Length == suffix.Length == TABLE && stack.Length == MATCH
    requires stack != suffix && stack != output.out_buf && suffix != output.out_buf
    requires output.Valid()
    requires Synced(prefix[..], suffix[..], end, mask, bits, prev, final, s, block)
    requires code <= mask && !(block && code == 256)
    modifies prefix, suffix, stack, output`outcnt, output`written, output`out_tot, output.out_buf
    ensures output.Valid()
    ensures ok <==> Lookup(s, code) != []
    ensures ok ==> output.All() == old(output.All()) + Lookup(s, code)
    ensures ok ==> Synced(prefix[..], suffix[..], end', mask, bits, code, final', Learn(s, Lookup(s, code)), block)
  {
    hide Lookup, Learn, Pow2, State.Valid, Output.All, Reversed, Synced;
    EndInTable(prefix[..], suffix[..], end, mask, bits, prev, final, s, block);
    var height;
    end' := end;
    ok, height, final' := StackString(prefix, suffix, stack, code, end, mask, prev, final, s, block, bits);
    if ok {
      if end < mask {
        end' := end + 1;
        prefix[end'] := prev;
        suffix[end'] := final';
      }
      LinkEntry(old(prefix[..]), old(suffix[..]), end, mask, bits, prev, final, s, block, code, Lookup(s, code),
                prefix[..], suffix[..], end');
      output.PutReversed(stack, height);
    }
  }

  lemma EndInTable(prefix: seq<nat>, suffix: seq<Byte>, end: nat, mask: nat, bits: nat, prev: nat, final: Byte,
                   s: State, block: bool)
    requires Synced(prefix, suffix, end, mask, bits, prev, final, s, block)
    ensures mask < TABLE
  {
    MaskFits(s, block);
  }

  /** Skipping to a new group and emptying the table, or only widening the codes. */
  lemma SyncedAfterClear(prefix: seq<nat>, suffix: seq<Byte>, end: nat, mask: nat, bits: nat, prev: nat, final: Byte,
                         s: State)
    requires Synced(prefix, suffix, end, mask, bits, prev, final, s, true)
    ensures Synced(prefix, suffix, 255, 511, 9, prev, final, Clear(s), true)
  {
    hide Skip;
    Pow2Small();
    ClearValid(s);
  }

  lemma SyncedAfterWiden(prefix: seq<nat>, suffix: seq<Byte>, end: nat, mask: nat, bits: nat, prev: nat, final: Byte,
                         s: State, block: bool, max: nat)
    requires Synced(prefix, suffix, end, mask, bits, prev, final, s, block) && max <= 16
    ensures end >= mask && bits < max ==>
              Widen(s, max) == Skip(s).(bits := bits + 1) &&
              Synced(prefix, suffix, end, 2 * mask + 1, bits + 1, prev, final, Widen(s, max), block)
    ensures !(end >= mask && bits < max) ==> Widen(s, max) == s
  {
    hide Skip, State.Valid;
    ValidBits(s, block);
    WidenValid(s, block, max);
    SkipShape(s);
    Pow2Small();
    assert Pow2(bits + 1) == 2 * Pow2(bits);
  }

  lemma ValidBits(s: State, block: bool)
    requires s.Valid(block)
    ensures 9 <= s.bits <= 16 && s.taken < 8
  {
  }

  lemma SyncedAfterAdvance(prefix: seq<nat>, suffix: seq<Byte>, end: nat, mask: nat, bits: nat, prev: nat, final: Byte,
                           s: State, block: bool)
    requires Synced(prefix, suffix, end, mask, bits, prev, final, s, block)
    requires 8 * |s.group| >= s.Bit() + s.bits
    ensures Synced(prefix, suffix, end, mask, bits, prev, final, Advance(s), block)
  {
    hide Pow2;
    AdvanceValid(s, block);
  }

  /** `FLUSHCODE` takes the input to the next group. */
  method FlushGroup(input: Input, left: nat, rem: nat, chunk: nat, ghost s: State, ghost block: bool) returns (chunk': nat)
    requires input.Valid() && chunk < BUF && s.Valid(block) && At(s, input.Rest(), left, rem, chunk)
    modifies input, input.in_buf
    ensures input.Valid() && chunk' < BUF && (chunk' == 0 || input.Rest() == [])
    ensures s.bits > 0 && input.Rest() == Skip(s).group
  {
    hide At, Skip, State.Valid, Input.Rest;
    UsedAt(s, block, input.Rest(), left, rem, chunk);
    chunk' := FlushCode(input, chunk);
  }

  /** Widen the codes if the table is full for their width. */
  method WidenCodes(input: Input, prefix: array<nat>, suffix: array<Byte>, end: nat, mask: nat, bits: nat, max: nat,
                    left: nat, rem: nat, chunk: nat, ghost prev: nat, ghost final: Byte, ghost s: State, ghost block: bool)
    returns (mask': nat, bits': nat, left': nat, rem': nat, chunk': nat)
    requires input.Valid() && chunk < BUF && max <= 16
    requires input.in_buf != suffix && input.in_buf != prefix as object
    requires Synced(prefix[..], suffix[..], end, mask, bits, prev, final, s, block)
    requires At(s, input.Rest(), left, rem, chunk)
    modifies input, input.in_buf
    ensures input.Valid() && chunk' < BUF
    ensures Synced(prefix[..], suffix[..], end, mask', bits', prev, final, Widen(s, max), block)
    ensures At(Widen(s, max), input.Rest(), left', rem', chunk')
  {
    mask', bits', left', rem', chunk' := mask, bits, left, rem, chunk;
    hide At, Widen, Skip, Synced, State.Valid, Input.Rest;
    SyncedAfterWiden(prefix[..], suffix[..], end, mask, bits, prev, final, s, block, max);
    SyncedIsValid(prefix[..], suffix[..], end, mask, bits, prev, final, s, block);
    ValidBits(s, block);
    if end >= mask && bits < max {
      chunk' := FlushGroup(input, left, rem, chunk, s, block);
      SkipShape(s);
      AtStart(Skip(s).(bits := s.bits + 1), chunk');
      left', rem' := 0, 0;
      bits' := bits + 1;
      mask' := 2 * mask + 1;
    }
  }

  lemma SyncedIsValid(prefix: seq<nat>, suffix: seq<Byte>, end: nat, mask: nat, bits: nat, prev: nat, final: Byte,
                      s: State, block: bool)
    requires Synced(prefix, suffix, end, mask, bits, prev, final, s, block)
    ensures s.Valid(block) && bits == s.bits
  {
    hide State.Valid, Represents;
  }

  lemma DecodeStep(s: State, block: bool, max: nat)
    requires s.Valid(block) && max <= 16
    ensures TakeStep(s, block, max) == End ==> Decode(s, block, max) == Plain([])
    ensures TakeStep(s, block, max) == Bad ==> Decode(s, block, max) == Corrupt
    ensures TakeStep(s, block, max).Next? ==>
              var t := TakeStep(s, block, max).state;
              t.Valid(block) && 0 <= t.Remaining() < s.Remaining() &&
              Decode(s, block, max) == Prefixed(TakeStep(s, block, max).out, Decode(t, block, max))
  {
    hide TakeStep;
    if TakeStep(s, block, max).Next? {
      StepValid(s, block, max);
    }
  }

  lemma PrefixedTwice(a: seq<Byte>, b: seq<Byte>, r: Result)
    ensures Prefixed(a, Prefixed(b, r)) == Prefixed(a + b, r)
  {
    if r.Plain? {
      assert a + (b + r.data) == (a + b) + r.data;
    }
  }

  /** Act on a code: clear the table, or put out a string. */
  method ApplyCode(input: Input, output: Output, prefix: array<nat>, suffix: array<Byte>, stack: array<Byte>,
                   code: nat, end: nat, mask: nat, bits: nat, prev: nat, final: Byte,
                   left: nat, rem: nat, chunk: nat, block: bool, ghost n: State)
    returns (ok: bool, end': nat, mask': nat, bits': nat, prev': nat, final': Byte,
             left': nat, rem': nat, chunk': nat, ghost t: State)
    requires prefix.Length == suffix.Length == TABLE && stack.Length == MATCH
    requires stack != suffix && stack != output.out_buf && suffix != output.out_buf && input.in_buf != output.out_buf
    requires input.in_buf != suffix && input.in_buf != stack
    requires input.Valid() && output.Valid() && chunk < BUF && code <= mask
    requires Synced(prefix[..], suffix[..], end, mask, bits, prev, final, n, block)
    requires At(n, input.Rest(), left, rem, chunk)
    modifies input, input.in_buf, prefix, suffix, stack
    modifies output`outcnt, output`written, output`out_tot, output.out_buf
    ensures input.Valid() && output.Valid()
    ensures n.bits > 0
    ensures ok <==> (block && code == 256) || Lookup(n, code) != []
    ensures ok ==>
      chunk' < BUF && t == (if block && code == 256 then Clear(n) else Learn(n, Lookup(n, code))) &&
      output.All() == old(output.All()) + (if block && code == 256 then [] else Lookup(n, code)) &&
      Synced(prefix[..], suffix[..], end', mask', bits', prev', final', t, block) &&
      At(t, input.Rest(), left', rem', chunk')
  {
    hide At, Synced, Lookup, Learn, Clear, State.Valid, Input.Rest, Output.All;
    SyncedValid(prefix[..], suffix[..], end, mask, bits, prev, final, n, block);
    end', mask', bits', prev', final', ok := end, mask, bits, prev, final, true;
    left', rem', chunk', t := left, rem, chunk, n;
    if code == 256 && block {
      left', rem', chunk' := ClearCodes(input, left', rem', chunk', n);
      SyncedAfterClear(prefix[..], suffix[..], end, mask, bits, prev, final, n);
      t := Clear(n);
      end', mask', bits' := 255, 511, 9;
      assert output.All() + [] == output.All();
    } else {
      ok, end', final' := ProcessCode(prefix, suffix, stack, output, code, end, mask, prev, final, n, block, bits);
      if ok {
        prev' := code;
        t := Learn(n, Lookup(n, code));
        LearnedAt(n, Lookup(n, code), input.Rest(), left', rem', chunk');
      }
    }
  }

  /** One pass of the decoding loop against one step of the format. */
  method DecodeCode(input: Input, output: Output, prefix: array<nat>, suffix: array<Byte>, stack: array<Byte>,
                    end: nat, mask: nat, bits: nat, max: nat, prev: nat, final: Byte,
                    left: nat, rem: nat, chunk: nat, block: bool, ghost s: State)
    returns (outcome: Outcome, end': nat, mask': nat, bits': nat, prev': nat, final': Byte,
             left': nat, rem': nat, chunk': nat, ghost t: State)
    requires prefix.Length == suffix.Length == TABLE && stack.Length == MATCH
    requires stack != suffix && stack != output.out_buf && suffix != output.out_buf && input.in_buf != output.out_buf
    requires input.in_buf != suffix && input.in_buf != stack
    requires input.Valid() && output.Valid() && chunk < BUF && max <= 16
    requires Synced(prefix[..], suffix[..], end, mask, bits, prev, final, s, block)
    requires At(s, input.Rest(), left, rem, chunk)
    modifies input, input.in_buf, prefix, suffix, stack
    modifies output`outcnt, output`written, output`out_tot, output.out_buf
    ensures input.Valid() && output.Valid()
    ensures s.bits > 0 && s.taken < 8
    ensures outcome == AtEnd <==> TakeStep(s, block, max) == End
    ensures outcome == Broken <==> TakeStep(s, block, max) == Bad
    ensures outcome == AtEnd ==> output.All() == old(output.All())
    ensures outcome == Found ==>
      TakeStep(s, block, max).Next? && t == TakeStep(s, block, max).state && chunk' < BUF &&
      output.All() == old(output.All()) + TakeStep(s, block, max).out &&
      Synced(prefix[..], suffix[..], end', mask', bits', prev', final', t, block) &&
      At(t, input.Rest(), left', rem', chunk')
  {
    hide At, Synced, Widen, Lookup, Learn, Code, Advance, Clear, State.Valid, Input.Rest, Output.All, Pow2, State.Used, State.Bit;
    end', prev', final', t := end, prev, final, s;
    SyncedValid(prefix[..], suffix[..], end, mask, bits, prev, final, s, block);
    mask', bits', left', rem', chunk' :=
      WidenCodes(input, prefix, suffix, end, mask, bits, max, left, rem, chunk, prev, final, s, block);
    ghost var w := Widen(s, max);
    SyncedValid(prefix[..], suffix[..], end, mask', bits', prev, final, w, block);
    var code;
    outcome, code, left', rem', chunk' := ReadCode(input, bits', mask', left', rem', chunk', w, block);
    if outcome == Found {
      SyncedAfterAdvance(prefix[..], suffix[..], end, mask', bits', prev, final, w, block);
      var ok;
      ok, end', mask', bits', prev', final', left', rem', chunk', t :=
        ApplyCode(input, output, prefix, suffix, stack, code, end, mask', bits', prev, final,
                  left', rem', chunk', block, Advance(w));
      if !ok {
        outcome := Broken;
      }
    }
  }

  lemma SyncedValid(prefix: seq<nat>, suffix: seq<Byte>, end: nat, mask: nat, bits: nat, prev: nat, final: Byte,
                    s: State, block: bool)
    requires Synced(prefix, suffix, end, mask, bits, prev, final, s, block)
    ensures s.Valid(block) && bits == s.bits && mask == Pow2(bits) - 1 && s.bits > 0 && s.taken < 8
  {
  }

  lemma LearnedAt(s: State, str: seq<Byte>, rest: seq<Byte>, left: nat, rem: nat, chunk: nat)
    requires str != [] && At(s, rest, left, rem, chunk)
    ensures At(Learn(s, str), rest, left, rem, chunk)
  {
  }

  method ClearCodes(input: Input, left: nat, rem: nat, chunk: nat, ghost s: State)
    returns (left': nat, rem': nat, chunk': nat)
    requires input.Valid() && chunk < BUF && s.Valid(true) && At(s, input.Rest(), left, rem, chunk)
    modifies input, input.in_buf
    ensures input.Valid() && chunk' < BUF && At(Clear(s), input.Rest(), left', rem', chunk')
  {
    hide At, Skip;
    chunk' := FlushGroup(input, left, rem, chunk, s, true);
    SkipShape(s);
    AtStart(Clear(s), chunk');
    left', rem' := 0, 0;
  }

  lemma LiteralsRepresented(prefix: seq<nat>, suffix: seq<Byte>, group: seq<Byte>, block: bool)
    requires |prefix| == |suffix| == TABLE && |group| >= 2
    ensures var end := if block then 256 else 255;
            Synced(prefix, suffix, end, 511, 9, group[0], group[0],
                   State(group, 1, 9, Literals(block), [group[0]]), block)
  {
    Pow2Small();
  }

  /** The first code takes one byte and a bit of the next. */
  lemma FirstCodeRead(group: seq<Byte>, table: seq<seq<Byte>>, last: seq<Byte>)
    requires |group| >= 2
    ensures At(State(group, 1, 9, table, last), group[2..], 7, group[1] / 2, 7)
  {
    Pow2Small();
    BitsKept(group, 9, 2);
  }

  /** The flags byte and the first code. */
  datatype Header = Refused | Empty | Start(max: nat, block: bool, first: Byte, second: Byte)

  function HeaderOf(file: seq<Byte>): Header {
    if file == [] then Refused
    else
      var max := if file[0] % 32 == 9 then 10 else file[0] % 32;
      if (file[0] / 32) % 4 != 0 || max < 9 || max > 16 then Refused
      else if |file| == 1 then Empty
      else if |file| == 2 || file[2] % 2 == 1 then Refused
      else Start(max, file[0] >= 128, file[1], file[2])
  }

  lemma MeaningByHeader(file: seq<Byte>)
    ensures HeaderOf(file) == Refused ==> Meaning(file) == Corrupt
    ensures HeaderOf(file) == Empty ==> Meaning(file) == Plain([])
    ensures HeaderOf(file).Start? ==>
      var h := HeaderOf(file);
      var s := State(file[1..], 1, 9, Literals(h.block), [h.first]);
      |file| >= 3 && s.Valid(h.block) && s.Remaining() >= 0 && 9 <= h.max <= 16 &&
      Meaning(file) == Prefixed([h.first], Decode(s, h.block, h.max))
  {
    Pow2Small();
  }

  method ReadHeader(input: Input) returns (header: Header)
    requires input.Valid()
    modifies input, input.in_buf
    ensures input.Valid() && header == HeaderOf(old(input.Rest()))
    ensures header.Start? ==> input.Rest() == old(input.Rest())[3..]
  {
    hide Input.Rest;
    var flags := input.Get();
    if input.in_eof {
      return Refused;
    }
    if (flags / 32) % 4 != 0 {
      return Refused;
    }
    var max := flags % 32;
    if max < 9 || max > 16 {
      return Refused;
    }
    if max == 9 {
      max := 10;
    }
    var first := input.Get();
    if input.in_eof {
      return Empty;
    }
    var second := input.Get();
    if input.in_eof || second % 2 == 1 {
      return Refused;
    }
    header := Start(max, flags >= 128, first, second);
  }

  /** Decode a whole file (after its magic bytes): the decoder accepts exactly
      the well-formed ones, and puts out what they mean. */
  method Unlzw(input: Input, output: Output) returns (ok: bool)
    requires input.Valid() && output.Valid() && input.in_buf != output.out_buf
    requires output.outcnt == 0 && output.written == []
    modifies input, input.in_buf, output, output.out_buf
    ensures input.Valid() && output.Valid()
    ensures ok <==> Meaning(old(input.Rest())) != Corrupt
    ensures ok ==> Meaning(old(input.Rest())) == Plain(output.written)
  {
    hide Input.Rest, State.Valid, Meaning, Decode, HeaderOf;
    ghost var file := input.Rest();
    MeaningByHeader(file);
    var header := ReadHeader(input);
    if header == Refused {
      return false;
    } else if header == Empty {
      return true;
    }
    var Start(max, block, first, second) := header;
    output.Put(first);
    var prefix := new nat[TABLE](_ => 0);
    var suffix := new Byte[TABLE](_ => 0);
    var stack := new Byte[MATCH](_ => 0);
    ok := Codes(input, output, prefix, suffix, stack, max, block, first, second, file);
  }

  /** The decoding loop, from just after the first code. */
  method Codes(input: Input, output: Output, prefix: array<nat>, suffix: array<Byte>, stack: array<Byte>,
               max: nat, block: bool, first: Byte, second: Byte, ghost file: seq<Byte>)
    returns (ok: bool)
    requires prefix.Length == suffix.Length == TABLE && stack.Length == MATCH
    requires stack != suffix && stack != output.out_buf && suffix != output.out_buf && input.in_buf != output.out_buf
    requires input.in_buf != suffix && input.in_buf != stack
    requires input.Valid() && output.Valid() && output.All() == [first]
    requires |file| >= 3 && HeaderOf(file) == Start(max, block, first, second) && input.Rest() == file[3..]
    modifies input, input.in_buf, prefix, suffix, stack, output, output.out_buf
    ensures input.Valid() && output.Valid()
    ensures ok <==> Meaning(file) != Corrupt
    ensures ok ==> Meaning(file) == Plain(output.written)
  {
    hide Input.Rest, Output.All, State.Valid, Meaning, Decode, HeaderOf, TakeStep, At, Synced, Literals;
    MeaningByHeader(file);
    ghost var s := State(file[1..], 1, 9, Literals(block), [first]);
    LiteralsRepresented(prefix[..], suffix[..], file[1..], block);
    FirstCodeRead(file[1..], Literals(block), [first]);
    FirstBytes(file, max, block, first, second);
    var end, mask, bits := if block then 256 else 255, 511, 9;
    var prev: nat, final := first, first;
    var left: nat, rem: nat, chunk: nat := 7, second / 2, 7;
    var outcome := Found;
    while outcome == Found
      invariant input.Valid() && output.Valid()
      invariant outcome == Found ==>
        chunk < BUF && s.Valid(block) && s.Remaining() >= 0 &&
        Synced(prefix[..], suffix[..], end, mask, bits, prev, final, s, block) &&
        At(s, input.Rest(), left, rem, chunk) &&
        Meaning(file) == Prefixed(output.All(), Decode(s, block, max))
      invariant outcome == AtEnd ==> Meaning(file) == Plain(output.All())
      invariant outcome == Broken ==> Meaning(file) == Corrupt
      decreases outcome == Found, s.Remaining()
    {
      ghost var before, was := s, output.All();
      DecodeStep(s, block, max);
      outcome, end, mask, bits, prev, final, left, rem, chunk, s :=
        DecodeCode(input, output, prefix, suffix, stack, end, mask, bits, max, prev, final,
                   left, rem, chunk, block, s);
      PrefixedEnds(was);
      if outcome == Found {
        PrefixedTwice(was, TakeStep(before, block, max).out, Decode(s, block, max));
      }
    }
    ok := outcome == AtEnd;
    if ok {
      output.Flush();
    }
  }

  lemma PrefixedEnds(a: seq<Byte>)
    ensures Prefixed(a, Plain([])) == Plain(a) && Prefixed(a, Corrupt) == Corrupt
  {
    assert a + [] == a;
  }

  lemma FirstBytes(file: seq<Byte>, max: nat, block: bool, first: Byte, second: Byte)
    requires |file| >= 3 && HeaderOf(file) == Start(max, block, first, second)
    ensures file[1..][0] == first && file[1..][1] == second && file[1..][2..] == file[3..]
  {
  }
}
