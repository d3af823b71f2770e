/** The coded list of flush-block lengths that a job carries, written by
    `append_len` and read back by the compress thread, `examples/pgz.c`. */
module Blocks {
  import opened Basics
  import opened Spaces

  // ---- Growing a buffer ----

  const SIZE_MAX: nat := 0xffff_ffff_ffff_ffff

  /** Halve `top` until at most 7; the number of halvings. */
  function Halvings(top: nat): nat {
    if top <= 7 then 0 else 1 + Halvings(top / 2)
  }

  function Leading(top: nat): (r: nat)
    ensures r <= 7 && (top >= 4 ==> r >= 4)
  {
    if top <= 7 then top else Leading(top / 2)
  }

  /** Up to the next power of two, when the three leading bits are all set. */
  function RoundUp(wide: nat): nat {
    if Leading(wide) == 7 then Pow2(Halvings(wide) + 3) else wide
  }

  /** A 64-bit `size_t`. */
  function Wrap(x: nat): nat { x % (SIZE_MAX + 1) }

  /** The next buffer size up. */
  function Grow(size: nat): (r: nat)
    requires size <= SIZE_MAX
  {
    var wide := Wrap(size + size / 4);
    var rounded := Wrap(RoundUp(wide));
    var least := if rounded < 16 then 16 else rounded;
    if least <= size then SIZE_MAX else least
  }

  lemma {:induction false} LeadingBounds(top: nat)
    requires top >= 4
    ensures Leading(top) * Pow2(Halvings(top)) <= top < (Leading(top) + 1) * Pow2(Halvings(top))
  {
    if top > 7 {
      LeadingBounds(top / 2);
      var l, p := Leading(top / 2), Pow2(Halvings(top / 2));
      assert Pow2(Halvings(top)) == 2 * p && Leading(top) == l;
      hide Leading, Halvings, Pow2;
      Doubled(l, p);
      Doubled(l + 1, p);
    }
  }

  lemma Doubled(l: nat, p: nat)
    ensures l * (2 * p) == 2 * (l * p)
  {
  }

  lemma RoundUpBounds(wide: nat)
    ensures wide <= RoundUp(wide) && 7 * RoundUp(wide) <= 8 * wide
  {
    if wide >= 4 {
      LeadingBounds(wide);
      var h := Halvings(wide);
      assert Pow2(h + 3) == 2 * Pow2(h + 2) == 4 * Pow2(h + 1) == 8 * Pow2(h);
    }
  }

  /** Growing saturates, or makes room for three more bytes, whatever part of
      the old size was in use. */
  lemma GrowIncreases(size: nat)
    requires size <= SIZE_MAX
    ensures Grow(size) == SIZE_MAX || Grow(size) >= size + 3
    ensures Grow(size) == size <==> size == SIZE_MAX
    ensures Grow(size) <= SIZE_MAX
    ensures size < 0x1000_0000 ==> size + 3 <= Grow(size) <= 2 * size + 16
  {
    hide RoundUp, Wrap;
    var sum := size + size / 4;
    WrapFacts(sum);
    RoundUpBounds(Wrap(sum));
    WrapFacts(RoundUp(Wrap(sum)));
  }

  lemma WrapFacts(x: nat)
    requires x < 2 * (SIZE_MAX + 1)
    ensures Wrap(x) == if x <= SIZE_MAX then x else x - (SIZE_MAX + 1)
  {
  }

  lemma HalveScaled(m: nat, p: nat, r: nat)
    requires 4 <= m && 1 <= p
    ensures (m * (2 * p) + r) / 2 == m * p + r / 2
    ensures m * (2 * p) + r > 7
  {
    assert m * (2 * p) == 2 * (m * p);
    assert m * p >= 4 * p;
  }

  lemma {:induction false} LeadingScale(m: nat, j: nat, r: nat)
    requires 4 <= m <= 7 && r < Pow2(j)
    ensures Leading(m * Pow2(j) + r) == m && Halvings(m * Pow2(j) + r) == j
  {
    if j > 0 {
      var p := Pow2(j - 1);
      LeadingScale(m, j - 1, r / 2);
      HalveScaled(m, p, r);
      var x := m * Pow2(j) + r;
      assert x / 2 == m * p + r / 2 && x > 7;
    }
  }

  /** A size just above `m * 2^j` and below `(m + 1) * 2^j`, where `m` is 5 or 6,
      grows by exactly a quarter. */
  lemma GrowQuarter(size: nat, m: nat, j: nat, r: nat)
    requires 16 <= size <= SIZE_MAX && size + size / 4 == m * Pow2(j) + r <= SIZE_MAX
    requires 4 <= m <= 6 && r < Pow2(j)
    ensures Grow(size) == size + size / 4
  {
    hide Leading, Halvings, Pow2, Wrap;
    LeadingScale(m, j, r);
    WrapFacts(size + size / 4);
  }

  lemma GrowRounded(size: nat, j: nat, r: nat)
    requires 16 <= size < Pow2(j + 3) <= SIZE_MAX && size + size / 4 == 7 * Pow2(j) + r <= SIZE_MAX
    requires r < Pow2(j)
    ensures Grow(size) == Pow2(j + 3)
  {
    hide Leading, Halvings, Pow2, Wrap;
    LeadingScale(7, j, r);
    WrapFacts(size + size / 4);
    WrapFacts(Pow2(j + 3));
  }

  /** Three steps double a power of two (of at least 16, short of overflow). */
  lemma ThreeGrowsDouble(k: nat)
    requires k >= 4 && Pow2(k + 1) <= SIZE_MAX
    ensures Grow(Pow2(k)) <= SIZE_MAX && Grow(Grow(Pow2(k))) <= SIZE_MAX
    ensures Grow(Grow(Grow(Pow2(k)))) == Pow2(k + 1)
  {
    hide Grow;
    var q := Pow2(k - 4);
    assert Pow2(k - 2) == 2 * Pow2(k - 3) == 4 * q;
    assert Pow2(k + 1) == 2 * Pow2(k) == 4 * Pow2(k - 1) == 8 * Pow2(k - 2);
    GrowQuarter(16 * q, 5, k - 2, 0);
    GrowQuarter(20 * q, 6, k - 2, q);
    GrowRounded(25 * q, k - 2, 3 * q + q / 4);
  }

  // ---- Coding one length ----

  /** Longest codable length; the source asserts that no block is longer. */
  const MAX_LEN: nat := 4227135

  const END: Byte := 128

  function Encode(len: nat): seq<Byte>
    requires len <= MAX_LEN
  {
    if len < 64 then [len + 128]
    else if len < 32832 then [(len - 64) / 256, (len - 64) % 256]
    else
      var l := len - 32832;
      [l / 65536 + 192, (l / 256) % 256, l % 256]
  }

  predicate Codable(blocks: seq<nat>) {
    forall i :: 0 <= i < |blocks| ==> 1 <= blocks[i] <= MAX_LEN
  }

  function EncodeAll(blocks: seq<nat>): seq<Byte>
    requires Codable(blocks)
    decreases |blocks|
  {
    if blocks == [] then [] else Encode(blocks[0]) + EncodeAll(blocks[1..])
  }

  lemma {:induction false} EncodeAllAppend(blocks: seq<nat>, b: nat)
    requires Codable(blocks) && 1 <= b <= MAX_LEN
    ensures EncodeAll(blocks + [b]) == EncodeAll(blocks) + Encode(b)
    decreases |blocks|
  {
    hide Encode;
    if blocks == [] {
      assert EncodeAll([b]) == Encode(b) + EncodeAll([]);
    } else {
      assert (blocks + [b])[1..] == blocks[1..] + [b];
      EncodeAllAppend(blocks[1..], b);
    }
  }

  lemma {:induction false} EncodeAllLength(blocks: seq<nat>)
    requires Codable(blocks)
    ensures |blocks| <= |EncodeAll(blocks)| <= 3 * |blocks|
    decreases |blocks|
  {
    if blocks != [] {
      EncodeAllLength(blocks[1..]);
    }
  }

  /** The list of one job: its blocks, then the terminator. */
  function Coded(blocks: seq<nat>): seq<Byte>
    requires Codable(blocks)
  {
    EncodeAll(blocks) + [END]
  }

  /** `grow_space`: the next size up; false if the buffer cannot grow. */
  method GrowSpace(space: Space<Byte>) returns (ok: bool)
    requires space.Valid() && space.buf.Length <= SIZE_MAX
    modifies space, space.buf
    ensures space.Valid() && space.Data() == old(space.Data()) && ok == (old(space.buf.Length) < SIZE_MAX)
    ensures space.buf == old(space.buf) || fresh(space.buf)
    ensures ok ==> space.buf.Length == Grow(old(space.buf.Length)) > old(space.buf.Length)
    ensures ok ==> space.buf.Length == SIZE_MAX || space.buf.Length >= old(space.buf.Length) + 3
    ensures !ok ==> space.buf == old(space.buf)
  {
    hide Grow;
    GrowIncreases(space.buf.Length);
    var more := Grow(space.buf.Length);
    if more == space.buf.Length {
      return false;
    }
    space.Reallocate(more);
    ok := true;
  }

  /** Add a length to a job's list (zero for the terminator), making room first.
      Growing once makes room for three bytes if and only if they can be
      addressed at all; otherwise, where the source either reports failure or
      goes on without room, nothing is added. */
  method AppendLen(lens: Space<Byte>, len: nat) returns (ok: bool)
    requires lens.Valid() && len <= MAX_LEN && lens.buf.Length <= SIZE_MAX
    modifies lens, lens.buf
    ensures lens.Valid() && ok == (old(lens.len) + 3 <= SIZE_MAX)
    ensures lens.Data() == old(lens.Data()) + if ok then Encode(len) else []
    ensures lens.buf == old(lens.buf) || fresh(lens.buf)
    ensures lens.buf.Length == if old(lens.buf.Length) < old(lens.len) + 3
                               then Grow(old(lens.buf.Length)) else old(lens.buf.Length)
  {
    hide Grow;
    if lens.buf.Length < lens.len + 3 {
      GrowIncreases(lens.buf.Length);
      var grown := GrowSpace(lens);
      if !grown || lens.buf.Length < lens.len + 3 {
        return false;
      }
    }
    PutCode(lens, len);
    ok := true;
  }

  /** The code of a length, in a buffer with room for it. */
  method PutCode(lens: Space<Byte>, len: nat)
    requires lens.Valid() && len <= MAX_LEN && lens.len + 3 <= lens.buf.Length
    modifies lens`len, lens.buf
    ensures lens.Valid() && lens.Data() == old(lens.Data()) + Encode(len) && lens.buf == old(lens.buf)
  {
    if len < 64 {
      lens.Put(len + 128);
    } else if len < 32832 {
      var l := len - 64;
      lens.Put(l / 256);
      lens.Put(l % 256);
    } else {
      var l := len - 32832;
      lens.Put(l / 65536 + 192);
      lens.Put((l / 256) % 256);
      lens.Put(l % 256);
    }
  }

  // ---- Reading the list back ----

  function Sum(blocks: seq<nat>): nat
    decreases |blocks|
  {
    if blocks == [] then 0 else blocks[0] + Sum(blocks[1..])
  }

  /** The blocks a job of `total` bytes is compressed in: the coded ones, then
      whatever is left. An empty or uncoded job is one block. */
  function Fill(blocks: seq<nat>, total: nat): seq<nat>
    requires Sum(blocks) <= total
  {
    if blocks != [] && Sum(blocks) == total then blocks else blocks + [total - Sum(blocks)]
  }

  lemma {:induction false} SumAppend(a: seq<nat>, b: nat)
    ensures Sum(a + [b]) == Sum(a) + b
    decreases |a|
  {
    if a == [] {
      assert Sum([b]) == b + Sum([]);
    } else {
      assert (a + [b])[1..] == a[1..] + [b];
      SumAppend(a[1..], b);
    }
  }

  lemma FillSum(blocks: seq<nat>, total: nat)
    requires Sum(blocks) <= total
    ensures Sum(Fill(blocks, total)) == total
  {
    SumAppend(blocks, total - Sum(blocks));
  }

  /** How a block is flushed: to a byte boundary, or finishing the stream. */
  datatype Flush = Block | Finish

  datatype Segment<T> = Segment(data: seq<T>, flush: Flush)

  function Join<T>(segments: seq<Segment<T>>): seq<T>
    decreases |segments|
  {
    if segments == [] then [] else segments[0].data + Join(segments[1..])
  }

  lemma {:induction false} JoinAppend<T>(a: seq<Segment<T>>, s: Segment<T>)
    ensures Join(a + [s]) == Join(a) + s.data
    decreases |a|
  {
    if a == [] {
      assert a + [s] == [s] && [s][1..] == [];
    } else {
      assert (a + [s])[1..] == a[1..] + [s];
      JoinAppend(a[1..], s);
    }
  }

  /** Reading a code back: its first byte tells its length and range. */
  lemma EncodeBytes(len: nat)
    requires 1 <= len <= MAX_LEN
    ensures var c := Encode(len);
            (c[0] < 128 && |c| == 2 && 256 * (c[0] as int) + c[1] as int + 64 == len)
            || (128 < c[0] < 192 && |c| == 1 && c[0] as int % 64 == len)
            || (192 <= c[0] && |c| == 3 &&
                65536 * (c[0] as int % 64) + 256 * (c[1] as int) + 32832 + c[2] as int == len)
  {
  }

  /** The bytes at `at` when the list there is `code + rest`. */
  lemma ListAt(data: seq<Byte>, at: nat, code: seq<Byte>, rest: seq<Byte>)
    requires at <= |data| && data[at..] == code + rest
    ensures at + |code| <= |data| && data[at + |code|..] == rest
    ensures forall i :: 0 <= i < |code| ==> data[at + i] == code[i]
  {
    assert data[at + |code|..] == data[at..][|code|..];
    forall i | 0 <= i < |code| ensures data[at + i] == code[i] {
      assert data[at..][i] == code[i];
    }
  }

  /** Decode one length at `at`; `left` is the number of bytes still to compress. */
  method NextLen(lens: Space<Byte>, at: nat, left: nat, ghost blocks: seq<nat>) returns (len: nat, next: nat)
    requires lens.Valid() && Codable(blocks) && Sum(blocks) <= left
    requires at <= lens.len && lens.Data()[at..] == Coded(blocks)
    ensures len == if blocks == [] then left else blocks[0]
    ensures blocks != [] ==> next <= lens.len && lens.Data()[next..] == Coded(blocks[1..])
  {
    hide Encode;
    ghost var code := if blocks == [] then [END] else Encode(blocks[0]);
    ghost var rest := if blocks == [] then [] else Coded(blocks[1..]);
    assert Coded(blocks) == code + rest;
    ListAt(lens.Data(), at, code, rest);
    if blocks != [] {
      EncodeBytes(blocks[0]);
    }
    len := lens.buf[at] as int;
    next := at + 1;
    assert len == code[0];
    if len < 128 {
      assert lens.buf[next] == code[1];
      len := 256 * len + lens.buf[next] as int + 64;
      next := next + 1;
    } else if len == 128 {
      len := left;
    } else if len < 192 {
      len := len % 64;
    } else {
      assert lens.buf[next] == code[1] && lens.buf[next + 1] == code[2];
      len := 65536 * (len % 64) + 256 * (lens.buf[next] as int) + 32832;
      len := len + lens.buf[next + 1] as int;
      next := next + 2;
    }
  }

  /** What the block loop has done: the first blocks are segments, `left` bytes
      remain, and the list goes on at `next`. */
  ghost predicate Cut<T>(input: seq<T>, coded: seq<Byte>, blocks: seq<nat>, segments: seq<Segment<T>>, left: nat, next: nat)
    requires Codable(blocks)
  {
    |segments| <= |blocks| && left <= |input| &&
    Sum(blocks[|segments|..]) <= left && left - Sum(blocks[|segments|..]) == |input| - Sum(blocks) &&
    next <= |coded| && coded[next..] == Coded(blocks[|segments|..]) &&
    Join(segments) == input[..|input| - left] &&
    forall i :: 0 <= i < |segments| ==> |segments[i].data| == blocks[i] && segments[i].flush == Block
  }

  lemma CutNext<T>(input: seq<T>, coded: seq<Byte>, blocks: seq<nat>, segments: seq<Segment<T>>, left: nat, next: nat,
                   len: nat, next': nat)
    requires Codable(blocks) && Sum(blocks) <= |input| && Cut(input, coded, blocks, segments, left, next)
    requires blocks[|segments|..] != [] && len == blocks[|segments|]
    requires next' <= |coded| && coded[next'..] == Coded(blocks[|segments| + 1..])
    ensures var start := |input| - left;
            len <= left && Cut(input, coded, blocks, segments + [Segment(input[start..start + len], Block)], left - len, next')
  {
    hide Coded, Join;
    var start := |input| - left;
    var rest := blocks[|segments|..];
    assert rest[1..] == blocks[|segments| + 1..];
    assert Sum(rest) == rest[0] + Sum(rest[1..]);
    JoinAppend(segments, Segment(input[start..start + len], Block));
    assert input[..start + len] == input[..start] + input[start..start + len];
  }

  lemma CutLast<T>(input: seq<T>, coded: seq<Byte>, blocks: seq<nat>, segments: seq<Segment<T>>, left: nat, next: nat, s: Segment<T>,
                   more: bool)
    requires Sum(blocks) <= |input| && Codable(blocks) && Cut(input, coded, blocks, segments, left, next)
    requires s.flush == if more then Block else Finish
    requires s.data == input[|input| - left..]
    requires |segments| == |blocks| || (left == blocks[|segments|] && |segments| == |blocks| - 1)
    requires |segments| == |blocks| ==> left > 0 || blocks == []
    ensures Complete(input, blocks, segments + [s], more)
  {
    hide Coded, Join, Sum, Fill;
    JoinAppend(segments, s);
    assert input == input[..|input| - left] + input[|input| - left..];
    FillIs(blocks, |input|, |segments|, left);
  }

  /** The pieces that the block loop makes of `total` bytes. */
  lemma FillIs(blocks: seq<nat>, total: nat, done: nat, left: nat)
    requires Sum(blocks) <= total && done <= |blocks| && left - Sum(blocks[done..]) == total - Sum(blocks)
    requires if done == |blocks| then left > 0 || blocks == [] else done == |blocks| - 1 && left == blocks[done]
    ensures Fill(blocks, total) == if done == |blocks| then blocks + [left] else blocks
  {
    if done == |blocks| {
      assert blocks[done..] == [];
    } else {
      assert blocks[done..] == [left];
      assert Sum([left]) == left + Sum([left][1..]);
    }
  }

  lemma CutStart<T>(input: seq<T>, coded: seq<Byte>, blocks: seq<nat>)
    requires Codable(blocks) && Sum(blocks) <= |input| && coded == Coded(blocks)
    ensures Cut(input, coded, blocks, [], |input|, 0)
  {
    assert blocks[0..] == blocks && coded[0..] == coded && input[..0] == [];
  }

  /** What follows the blocks done so far. */
  lemma CutRest<T>(input: seq<T>, coded: seq<Byte>, blocks: seq<nat>, segments: seq<Segment<T>>, left: nat, next: nat)
    requires Codable(blocks) && Sum(blocks) <= |input| && Cut(input, coded, blocks, segments, left, next)
    ensures var rest := blocks[|segments|..];
            Sum(rest) <= left && (rest == [] <==> |segments| == |blocks|) &&
            (rest != [] ==> rest[0] == blocks[|segments|] <= left && rest[1..] == blocks[|segments| + 1..]) &&
            (rest != [] && rest[0] == left ==> |segments| == |blocks| - 1)
  {
    hide Coded, Join;
    var rest := blocks[|segments|..];
    if |rest| > 1 {
      SumPositive(rest[1..]);
    }
  }

  lemma SumPositive(blocks: seq<nat>)
    requires Codable(blocks) && blocks != []
    ensures Sum(blocks) > 0
  {
  }

  /** The next piece of the input: a coded block, or all that is left. */
  method NextBlock<T(0)>(input: Space<T>, lens: Space?<Byte>, left: nat, next: nat, more: bool,
                         ghost coded: seq<Byte>, ghost blocks: seq<nat>, ghost segments: seq<Segment<T>>)
    returns (s: Segment<T>, len: nat, next': nat)
    requires input.Valid() && Codable(blocks) && Sum(blocks) <= input.len
    requires if lens == null then blocks == [] else lens.Valid() && lens.Data() == coded
    requires Cut(input.Data(), coded, blocks, segments, left, next)
    ensures len <= left <= input.len && s.data == input.Data()[input.len - left..input.len - left + len]
    ensures s.flush == if left - len > 0 || more then Block else Finish
    ensures if |segments| == |blocks| then len == left else |segments| < |blocks| && len == blocks[|segments|]
    ensures |segments| < |blocks| ==> next' <= |coded| && coded[next'..] == Coded(blocks[|segments| + 1..])
    ensures |segments| < |blocks| && len == left ==> |segments| == |blocks| - 1
  {
    hide Coded, Join, Sum;
    ghost var data := input.Data();
    CutRest(data, coded, blocks, segments, left, next);
    len, next' := left, next;
    if lens != null {
      len, next' := NextLen(lens, next, left, blocks[|segments|..]);
    }
    var start := input.len - left;
    s := Segment(input.buf[start..start + len], if left - len > 0 || more then Block else Finish);
    assert s.data == data[start..start + len];
  }

  /** The block loop of the compress thread: the coded lengths cut the input
      into consecutive pieces that are all of it, `left` never goes negative,
      and only the last piece of the last job finishes the stream. */
  method CompressBlocks<T(0)>(input: Space<T>, lens: Space?<Byte>, more: bool, ghost blocks: seq<nat>)
    returns (segments: seq<Segment<T>>)
    requires input.Valid() && Codable(blocks) && Sum(blocks) <= input.len
    requires lens == null ==> blocks == []
    requires lens != null ==> lens.Valid() && lens.Data() == Coded(blocks)
    ensures Join(segments) == input.Data()
    ensures |segments| == |Fill(blocks, input.len)|
    ensures forall i :: 0 <= i < |segments| ==> |segments[i].data| == Fill(blocks, input.len)[i]
    ensures forall i :: 0 <= i < |segments| ==> (segments[i].flush == Finish <==> i == |segments| - 1 && !more)
  {
    hide Coded, Join, Sum, Fill, Cut, Codable;
    ghost var coded := if lens == null then Coded(blocks) else lens.Data();
    ghost var data := input.Data();
    segments := [];
    var next: nat, left: nat := 0, input.len;
    CutStart(data, coded, blocks);
    var s, len, done := Segment([], Block), 0, false;
    while !done
      invariant left <= input.len && (!done ==> |segments| <= |blocks|)
      invariant !done ==> Cut(data, coded, blocks, segments, left, next)
      invariant !done && left == 0 ==> segments == []
      invariant done ==> Complete(data, blocks, segments, more)
      decreases !done, |blocks| - |segments|
    {
      ghost var was := next;
      s, len, next := NextBlock(input, lens, left, next, more, coded, blocks, segments);
      done := left == len;
      if done {
        CutLast(data, coded, blocks, segments, left, was, s, more);
      } else {
        CutNext(data, coded, blocks, segments, left, was, len, next);
      }
      left := left - len;
      segments := segments + [s];
    }
  }

  ghost predicate Complete<T>(input: seq<T>, blocks: seq<nat>, segments: seq<Segment<T>>, more: bool) {
    Sum(blocks) <= |input| && Join(segments) == input && |segments| == |Fill(blocks, |input|)| &&
    (forall i :: 0 <= i < |segments| ==> |segments[i].data| == Fill(blocks, |input|)[i]) &&
    (forall i :: 0 <= i < |segments| ==> (segments[i].flush == Finish <==> i == |segments| - 1 && !more))
  }
}
