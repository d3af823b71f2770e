/** How the main thread cuts the input into jobs, with rsyncable block lengths
    and a preset dictionary for each job, `examples/pgz.c`. */
module Splitter {
  import opened Basics
  import opened Blocks
  import opened RollingHash

  /** The distance limit of deflate, section 2 of RFC 1951. */
  const DICT := 32768

  /** Largest permitted size of an input buffer. */
  const MAX_SIZE := 0x40_0000

  // ---- Where blocks and jobs end ----

  /** The lengths between consecutive hits after `start`, up to `end`. */
  function Cuts(input: seq<bv8>, start: nat, end: nat): (c: seq<nat>)
    requires start <= end <= |input|
    ensures Sum(c) <= end - start && |c| <= end - start
    ensures forall i :: 0 <= i < |c| ==> 1 <= c[i] <= end - start
    decreases end - start
  {
    if start == end then []
    else
      var c := Cuts(input, start, end - 1);
      if Hit(input, end) then
        SumAppend(c, end - start - Sum(c));
        c + [end - start - Sum(c)]
      else c
  }

  /** The end of the job that starts at `start`, when input follows: the last
      hit in the next `size` bytes, or all of them if there is none. */
  function CutPoint(input: seq<bv8>, start: nat, size: nat): nat
    requires start <= |input|
  {
    var end := if start + size < |input| then start + size else |input|;
    var c := Cuts(input, start, end);
    if c == [] then end else start + Sum(c)
  }

  lemma {:induction false} CutsExtend(input: seq<bv8>, start: nat, mid: nat, end: nat)
    requires start <= mid <= end <= |input|
    requires forall p :: mid < p <= end ==> !Hit(input, p)
    ensures Cuts(input, start, end) == Cuts(input, start, mid)
    decreases end
  {
    if mid < end {
      CutsExtend(input, start, mid, end - 1);
    }
  }

  /** No hit lies between the last cut and the end of the scan. */
  lemma {:induction false} NoHitAfterLast(input: seq<bv8>, start: nat, end: nat)
    requires start <= end <= |input|
    ensures forall p :: start + Sum(Cuts(input, start, end)) < p <= end ==> !Hit(input, p)
    ensures Cuts(input, start, end) != [] ==> Hit(input, start + Sum(Cuts(input, start, end)))
    decreases end
  {
    if start < end {
      NoHitAfterLast(input, start, end - 1);
      var c := Cuts(input, start, end - 1);
      SumAppend(c, end - start - Sum(c));
    }
  }

  /** Cutting again only up to the last cut gives the same blocks. */
  lemma CutsToLast(input: seq<bv8>, start: nat, end: nat)
    requires start <= end <= |input|
    ensures var last := start + Sum(Cuts(input, start, end));
            Cuts(input, start, last) == Cuts(input, start, end)
  {
    NoHitAfterLast(input, start, end);
    CutsExtend(input, start, start + Sum(Cuts(input, start, end)), end);
  }

  /** `p` is the end of one of the blocks laid out from `start`. */
  ghost predicate Boundary(start: nat, blocks: seq<nat>, p: nat) {
    exists k :: 0 < k <= |blocks| && start + Sum(blocks[..k]) == p
  }

  lemma BoundaryAppend(start: nat, blocks: seq<nat>, b: nat, p: nat)
    ensures Boundary(start, blocks + [b], p) <==> Boundary(start, blocks, p) || start + Sum(blocks) + b == p
  {
    var c := blocks + [b];
    SumAppend(blocks, b);
    assert c[..|c|] == c;
    forall k | 0 < k <= |blocks| ensures c[..k] == blocks[..k] {
    }
    if Boundary(start, blocks, p) {
      var k :| 0 < k <= |blocks| && start + Sum(blocks[..k]) == p;
      assert start + Sum(c[..k]) == p;
    }
    if start + Sum(c) == p {
      assert start + Sum(c[..|c|]) == p;
    }
  }

  /** The block boundaries inside a job are exactly its hits. */
  lemma {:induction false} BoundariesAreHits(input: seq<bv8>, start: nat, end: nat, p: nat)
    requires start < p <= end <= |input|
    ensures Boundary(start, Cuts(input, start, end), p) <==> Hit(input, p)
    decreases end
  {
    var d := Cuts(input, start, end - 1);
    if Hit(input, end) {
      BoundaryAppend(start, d, end - start - Sum(d), p);
    }
    if p < end {
      BoundariesAreHits(input, start, end - 1, p);
    } else {
      forall k | 0 < k <= |d| ensures start + Sum(d[..k]) != end {
        SumPrefix(d, k);
      }
    }
  }

  lemma {:induction false} SumPrefix(c: seq<nat>, k: nat)
    requires k <= |c|
    ensures Sum(c[..k]) <= Sum(c)
    decreases |c|
  {
    if k == |c| {
      assert c[..k] == c;
    } else {
      var init := c[..|c| - 1];
      assert c == init + [c[|c| - 1]] && c[..k] == init[..k];
      SumAppend(init, c[|c| - 1]);
      SumPrefix(init, k);
    }
  }

  // ---- What is buffered ----

  /** The input buffered before the job that starts at `start`: `have` bytes in
      the next buffer, and `held` bytes in one kept behind it. */
  datatype Ahead = Ahead(start: nat, have: nat, held: nat)

  /** The bytes in the buffer behind the job's: those kept, or newly read ones. */
  function Following(n: nat, size: nat, a: Ahead): nat {
    if a.held > 0 then a.held else Min(size, Minus(n, a.start + a.have))
  }

  /** The end of the job: all of its buffer when block boundaries are not wanted
      or no input follows, and otherwise the last hit, or a full buffer. */
  function EndOf(input: seq<bv8>, size: nat, rsync: bool, a: Ahead): (end: nat)
    requires a.start + a.have <= |input|
    ensures end <= |input|
  {
    if !rsync || a.start + a.have == |input| then a.start + a.have else CutPoint(input, a.start, size)
  }

  /** The job is shorter than its buffer, so that the rest has to be moved. */
  predicate Splits(a: Ahead, end: nat) {
    end < a.start + a.have
  }

  /** What is buffered after a job with this end. */
  function After(n: nat, size: nat, a: Ahead, end: nat): Ahead {
    var f := Following(n, size, a);
    if Splits(a, end) then Ahead(end, a.start + a.have - end, f)
    else Ahead(end, Minus(a.start + a.have + f, end), 0)
  }

  /** What is buffered before job `k` of an input. */
  function Layout(input: seq<bv8>, size: nat, rsync: bool, k: nat): (a: Ahead)
    ensures a.start + a.have + a.held <= |input|
  {
    if k == 0 then Ahead(0, Min(size, |input|), 0)
    else
      var a := Layout(input, size, rsync, k - 1);
      After(|input|, size, a, EndOf(input, size, rsync, a))
  }

  // ---- Jobs ----

  /** A job as handed to the compress threads. */
  datatype Job = Job(data: seq<bv8>, lens: Lens, dict: Dict, more: bool)

  datatype Lens = NoLens | Lens(bytes: seq<Byte>)

  datatype Dict = NoDict | Dict(bytes: seq<bv8>)

  /** What a compressor uses of a dictionary buffer: its last 32K bytes. */
  function Window(d: seq<bv8>): seq<bv8> {
    if |d| <= DICT then d else d[|d| - DICT..]
  }

  /** `end` is a correct end for the job that starts at `start`. */
  predicate GoodEnd(input: seq<bv8>, size: nat, rsync: bool, start: nat, end: nat) {
    start <= end <= |input| && end <= start + size &&
    if !rsync then end == Min(start + size, |input|)
    else end == |input| || end == CutPoint(input, start, size)
  }

  /** `job` covers the input from `start` to `end` as it should. */
  predicate GoodJob(input: seq<bv8>, size: nat, rsync: bool, setdict: bool, start: nat, end: nat, job: Job)
    requires size <= MAX_SIZE
  {
    GoodEnd(input, size, rsync, start, end) &&
    job.data == input[start..end] &&
    (job.more <==> end < |input|) &&
    (job.lens == if rsync && start < |input| then Lens(Coded(Cuts(input, start, end))) else NoLens) &&
    if setdict && start > 0 then
      job.dict.Dict? && Window(job.dict.bytes) == Window(input[..start])
    else job.dict == NoDict
  }
}
