/** The main thread of the compressor, `parallel_compress2` in `examples/pgz.c`:
    input is read into spaces, cut into jobs in place, and each job gets its
    block lengths and its dictionary. */
module Compressor {
  import opened Basics
  import opened Spaces
  import opened Blocks
  import opened RollingHash
  import opened Splitter

  /** The block list has room to grow for any number of hits in one job. */
  ghost predicate Roomy(lens: Space<Byte>, blocks: seq<nat>)
    reads lens, lens.buf
    requires Codable(blocks)
  {
    lens.Valid() && lens.buf.Length <= 0x400_0000 && |blocks| <= MAX_SIZE &&
    lens.Data() == EncodeAll(blocks)
  }

  /** Bytes `[0, len)` of `space` are the input from position `at`. */
  ghost predicate Holds(space: Space<bv8>, input: seq<bv8>, at: nat, size: nat)
    reads space, space.buf
  {
    space.Valid() && space.buf.Length == size &&
    at + space.len <= |input| && space.Data() == input[at..at + space.len]
  }

  /** Copy the next input into a space; a short read means the end was reached. */
  method ReadN(input: seq<bv8>, offset: nat, space: Space<bv8>) returns (next: nat)
    requires offset <= |input| && space.Valid()
    modifies space`len, space.buf
    ensures offset <= next <= |input| && Holds(space, input, offset, space.buf.Length)
    ensures space.len == next - offset
    ensures next == Min(offset + space.buf.Length, |input|)
  {
    var len := space.buf.Length;
    if offset + len > |input| {
      len := |input| - offset;
    }
    for i := 0 to len
      invariant space.buf == old(space.buf)
      invariant space.buf[..i] == input[offset..offset + i]
    {
      space.buf[i] := input[offset + i];
    }
    space.len := len;
    next := offset + len;
  }

  method AppendHit(lens: Space<Byte>, len: nat, ghost blocks: seq<nat>)
    requires Codable(blocks) && Roomy(lens, blocks) && |blocks| < MAX_SIZE && 1 <= len <= MAX_LEN
    modifies lens, lens.buf
    ensures Codable(blocks + [len]) && Roomy(lens, blocks + [len])
    ensures lens.buf == old(lens.buf) || fresh(lens.buf)
  {
    hide Grow, Encode;
    EncodeAllLength(blocks);
    EncodeAllAppend(blocks, len);
    GrowIncreases(lens.buf.Length);
    var ok := AppendLen(lens, len);
  }

  /** The block list after hashing one more byte. */
  lemma ScanStep(input: seq<bv8>, start: nat, p: nat)
    requires start <= p < |input|
    ensures var c, d := Cuts(input, start, p), Cuts(input, start, p + 1);
            if Step(HashAt(input, p), input[p]) == RSYNCHIT
            then d == c + [p + 1 - start - Sum(c)] && start + Sum(d) == p + 1
            else d == c
    ensures HashAt(input, p + 1) == Step(HashAt(input, p), input[p])
  {
    hide Step, Fold, HashAt;
    HashNext(input, p);
    SumAppend(Cuts(input, start, p), p + 1 - start - Sum(Cuts(input, start, p)));
  }

  /** Hash `space` from `scan` to `end`, adding the distance between hits to the
      block list; `carried` bytes before the buffer belong to the first block. */
  method Scan(space: Space<bv8>, scan: nat, end: nat, hash: bv32, carried: nat, lens: Space<Byte>,
              ghost input: seq<bv8>, ghost start: nat, ghost at: nat, ghost size: nat)
    returns (hash': bv32, last: nat, carried': nat)
    requires Holds(space, input, at, size) && scan <= end <= space.len
    requires start <= at && at + end <= start + size && size <= MAX_SIZE
    requires hash == HashAt(input, at + scan)
    requires Roomy(lens, Cuts(input, start, at + scan))
    requires start + Sum(Cuts(input, start, at + scan)) + carried == at
    requires lens.buf != space.buf as object
    modifies lens, lens.buf
    ensures hash' == HashAt(input, at + end)
    ensures Roomy(lens, Cuts(input, start, at + end))
    ensures lens.buf == old(lens.buf) || fresh(lens.buf)
    ensures start + Sum(Cuts(input, start, at + end)) + carried' == at + last
    ensures last <= end
    ensures last == 0 ==> carried' == carried && Cuts(input, start, at + end) == Cuts(input, start, at + scan)
    ensures last > 0 ==> carried' == 0 && Cuts(input, start, at + end) != []
  {
    hide Step, HashAt, Cuts, EncodeAll, Roomy, Sum;
    hash', last, carried' := hash, 0, carried;
    var pos := scan;
    while pos < end
      invariant scan <= pos <= end && last <= pos
      invariant hash' == HashAt(input, at + pos)
      invariant Roomy(lens, Cuts(input, start, at + pos))
      invariant lens.buf == old(lens.buf) || fresh(lens.buf)
      invariant start + Sum(Cuts(input, start, at + pos)) + carried' == at + last
      invariant last == 0 ==> carried' == carried && Cuts(input, start, at + pos) == Cuts(input, start, at + scan)
      invariant last > 0 ==> carried' == 0 && Cuts(input, start, at + pos) != []
    {
      ghost var blocks := Cuts(input, start, at + pos);
      ScanStep(input, start, at + pos);
      assert space.buf[pos] == space.Data()[pos] == input[at + pos];
      hash' := Step(hash', space.buf[pos]);
      pos := pos + 1;
      if hash' == RSYNCHIT {
        var len := pos - last + carried';
        AppendHit(lens, len, blocks);
        carried' := 0;
        last := pos;
      }
    }
  }

  // ---- Ending a job ----

  ghost predicate Separate<S(0), T(0)>(a: Space<S>, b: Space<T>)
    reads a, b
  {
    a as object != b && a.buf as object != b.buf
  }

  /** What is known of the hash between jobs, when `have` bytes from `start` are
      in the first buffer and `follow` in the one held after it (zero if none):
      everything before the scan position has been hashed without a hit. */
  predicate Scanned(input: seq<bv8>, start: nat, have: nat, follow: nat, size: nat,
                    left: nat, scan: nat, hash: bv32)
  {
    start + have + follow <= |input| &&
    if left == 0 then
      scan <= have && hash == HashAt(input, start + scan) && Cuts(input, start, start + scan) == []
    else
      left == have && 0 < follow && scan <= follow && have + scan <= size &&
      hash == HashAt(input, start + have + scan) && Cuts(input, start, start + have + scan) == []
  }

  /** The end of the scan for the job that starts at `start`. */
  function WindowEnd(input: seq<bv8>, start: nat, size: nat): nat {
    Min(start + size, |input|)
  }

  /** Terminate the block list. */
  method AppendEnd(lens: Space<Byte>, ghost blocks: seq<nat>)
    requires Codable(blocks) && Roomy(lens, blocks)
    modifies lens, lens.buf
    ensures lens.Valid() && lens.Data() == Coded(blocks) && (lens.len == 1 <==> blocks == [])
    ensures lens.buf == old(lens.buf) || fresh(lens.buf)
  {
    hide Grow;
    EncodeAllLength(blocks);
    GrowIncreases(lens.buf.Length);
    var ok := AppendLen(lens, 0);
  }

  /** An empty block list of the initial size. */
  method NewLens(size: nat) returns (lens: Space<Byte>)
    requires size <= MAX_SIZE
    ensures fresh(lens) && fresh(lens.buf) && Roomy(lens, [])
  {
    lens := new Space<Byte>(size / 2048);
  }

  /** Hash the rest of `curr`, unless `left` says that it has been done. */
  method ScanCurr(curr: Space<bv8>, left: nat, scan: nat, hash: bv32, lens: Space<Byte>,
                  ghost input: seq<bv8>, ghost start: nat, ghost follow: nat, ghost size: nat)
    returns (hash': bv32, scan': nat, left': nat)
    requires 0 < size <= MAX_SIZE && 0 < curr.len
    requires Holds(curr, input, start, size)
    requires Scanned(input, start, curr.len, follow, size, left, scan, hash)
    requires Roomy(lens, []) && lens.buf != curr.buf as object
    modifies lens, lens.buf
    ensures lens.buf == old(lens.buf) || fresh(lens.buf)
    ensures left != 0 ==> left' == left && scan' == scan
    ensures left == 0 ==> scan' == 0
    ensures hash' == HashAt(input, start + curr.len + scan')
    ensures Roomy(lens, Cuts(input, start, start + curr.len + scan'))
    ensures start + Sum(Cuts(input, start, start + curr.len + scan')) + left' == start + curr.len
  {
    hide HashAt, Roomy;
    hash', left', scan' := hash, left, scan;
    if left == 0 {
      var last, carried;
      hash', last, carried := Scan(curr, scan, curr.len, hash, 0, lens, input, start, start, size);
      left' := curr.len - last;
      scan' := 0;
    }
  }

  /** Hash what is in `curr` and as much of `next` as would fill it, leaving the
      terminated block list; `left` bytes of `curr` follow its last hit. */
  method ScanJob(curr: Space<bv8>, next: Space<bv8>, left: nat, scan: nat, hash: bv32,
                 ghost input: seq<bv8>, ghost start: nat, size: nat)
    returns (lens: Space<Byte>, hash': bv32, scan': nat, last: nat, left': nat)
    requires 0 < size <= MAX_SIZE && 0 < curr.len
    requires Holds(curr, input, start, size) && Holds(next, input, start + curr.len, size)
    requires Separate(curr, next)
    requires next.len < size ==> start + curr.len + next.len == |input|
    requires Scanned(input, start, curr.len, next.len, size, left, scan, hash)
    ensures fresh(lens) && fresh(lens.buf) && lens.Valid()
    ensures scan' == Min(size - curr.len, next.len)
    ensures start + curr.len + scan' == WindowEnd(input, start, size)
    ensures hash' == HashAt(input, start + curr.len + scan')
    ensures var blocks := Cuts(input, start, start + curr.len + scan');
            lens.Data() == Coded(blocks) && (lens.len == 1 <==> blocks == []) &&
            start + Sum(blocks) + left' == start + curr.len + last
    ensures last <= scan' && (last > 0 ==> left' == 0 && lens.len != 1)
    ensures left != 0 && last == 0 ==> lens.len == 1
  {
    hide HashAt, Cuts, Roomy, EncodeAll;
    lens := NewLens(size);
    hash', scan', left' := ScanCurr(curr, left, scan, hash, lens, input, start, next.len, size);
    var end := Min(size - curr.len, next.len);
    hash', last, left' :=
      Scan(next, scan', end, hash', left', lens, input, start, start + curr.len, size);
    scan' := end;
    AppendEnd(lens, Cuts(input, start, start + curr.len + end));
  }

  /** Between jobs `next` starts at `start`, `hold` (if any) follows it, and an
      empty or short buffer means that the input is exhausted. */
  ghost predicate Buffered(next: Space<bv8>, hold: Space?<bv8>, input: seq<bv8>, start: nat, size: nat, left: nat)
    reads next, next.buf, hold, if hold == null then {} else {hold.buf}
  {
    Holds(next, input, start, size) &&
    (left == 0 <==> hold == null) &&
    (next.len == 0 ==> start == |input|) &&
    (hold != null ==>
      Separate(next, hold) && 0 < next.len == left && 0 < hold.len && Holds(hold, input, start + next.len, size) &&
      (hold.len < size ==> start + next.len + hold.len == |input|))
  }

  /** What the next iteration needs when it has to place block boundaries. */
  ghost predicate Staged(next: Space<bv8>, hold: Space?<bv8>, input: seq<bv8>, start: nat, size: nat,
                         left: nat, scan: nat, hash: bv32)
    reads next, next.buf, hold, if hold == null then {} else {hold.buf}
  {
    Buffered(next, hold, input, start, size, left) &&
    Scanned(input, start, next.len, if hold == null then 0 else hold.len, size, left, scan, hash)
  }

  /** The possible ends of a job, once its blocks are known. */
  lemma EndOfJob(input: seq<bv8>, start: nat, size: nat, end: nat, window: nat)
    requires start <= end <= window <= |input| && window == WindowEnd(input, start, size)
    requires var c := Cuts(input, start, window);
             end == window == |input| || end == if c == [] then window else start + Sum(c)
    ensures GoodEnd(input, size, true, start, end)
    ensures Cuts(input, start, end) == Cuts(input, start, window)
    ensures end == (var c := Cuts(input, start, window); if c == [] then window else start + Sum(c)) ==>
              Cuts(input, end, window) == []
  {
    NoHitAfterLast(input, start, window);
    CutsToLast(input, start, window);
    CutsExtend(input, end, end, window);
  }

  /** Append the first `len` bytes of `next` to `curr`. */
  method MoveToCurr(curr: Space<bv8>, next: Space<bv8>, len: nat, ghost input: seq<bv8>, ghost start: nat, ghost size: nat)
    requires Separate(curr, next) && len <= next.len && curr.len + len <= size
    requires Holds(curr, input, start, size) && Holds(next, input, start + curr.len, size)
    modifies curr`len, curr.buf, next`len, next.buf
    ensures Holds(curr, input, start, size) && curr.len == old(curr.len) + len
    ensures Holds(next, input, start + curr.len, size) && next.len == old(next.len) - len
  {
    curr.Append(next, len);
    next.DropFront(len);
  }

  /** Move the last `left` bytes of `curr` to a new space. */
  method SaveRest(curr: Space<bv8>, left: nat, ghost input: seq<bv8>, ghost start: nat, size: nat)
    returns (next: Space<bv8>)
    requires left <= curr.len && Holds(curr, input, start, size)
    modifies curr`len
    ensures Holds(curr, input, start, size) && curr.len == old(curr.len) - left
    ensures fresh(next) && fresh(next.buf)
    ensures Holds(next, input, start + curr.len, size) && next.len == left
  {
    next := new Space<bv8>(size);
    next.TakeTail(curr, curr.len - left);
    curr.Truncate(curr.len - left);
  }

  /** The result of scanning for the job that starts at `start`: `coded` is the
      length of its coded block list (one if there was no hit), `last` is just
      after the last hit in `next`, and `left` counts the bytes of `curr` after
      its last hit. */
  ghost predicate ScanDone(curr: Space<bv8>, next: Space<bv8>, coded: nat, last: nat, left: nat, scan: nat,
                           hash: bv32, input: seq<bv8>, start: nat, size: nat)
    reads curr, curr.buf, next, next.buf
  {
    0 < size <= MAX_SIZE && 0 < curr.len && Separate(curr, next) &&
    Holds(curr, input, start, size) && Holds(next, input, start + curr.len, size) &&
    (next.len < size ==> start + curr.len + next.len == |input|) &&
    scan == Min(size - curr.len, next.len) &&
    start + curr.len + scan == WindowEnd(input, start, size) &&
    hash == HashAt(input, start + curr.len + scan) &&
    (var blocks := Cuts(input, start, start + curr.len + scan);
      (coded == 1 <==> blocks == []) && start + Sum(blocks) + left == start + curr.len + last) &&
    last <= scan && (last > 0 ==> left == 0 && coded != 1)
  }

  /** There were hits in `next`, or none at all: fill `curr` up from `next`. */
  method FillCurr(curr: Space<bv8>, next: Space<bv8>, coded: nat, last: nat, left: nat, scan: nat, hash: bv32,
                  ghost input: seq<bv8>, ghost start: nat, ghost size: nat)
    returns (scan': nat)
    requires ScanDone(curr, next, coded, last, left, scan, hash, input, start, size)
    requires 0 < if coded == 1 then scan else last
    modifies curr`len, curr.buf, next`len, next.buf
    ensures Holds(curr, input, start, size) && curr.len == old(curr.len) + if coded == 1 then scan else last
    ensures GoodEnd(input, size, true, start, start + curr.len)
    ensures Cuts(input, start, start + curr.len) == Cuts(input, start, start + old(curr.len) + scan)
    ensures Staged(next, null, input, start + curr.len, size, 0, scan', hash)
    ensures next.len + curr.len == old(next.len + curr.len)
  {
    hide HashAt, Cuts, CutPoint, GoodEnd;
    var len := if coded == 1 then scan else last;
    EndOfJob(input, start, size, start + curr.len + len, start + curr.len + scan);
    MoveToCurr(curr, next, len, input, start, size);
    scan' := scan - len;
  }

  /** The last hit was in `curr`, with input after it: that input becomes the
      start of the next job, and `next` is held to follow it. */
  method SplitCurr(curr: Space<bv8>, next: Space<bv8>, coded: nat, left: nat, scan: nat, hash: bv32,
                   ghost input: seq<bv8>, ghost start: nat, size: nat)
    returns (rest: Space<bv8>)
    requires ScanDone(curr, next, coded, 0, left, scan, hash, input, start, size)
    requires coded != 1 && left != 0 && next.len != 0
    modifies curr`len
    ensures Holds(curr, input, start, size) && 0 < curr.len && curr.len + left == old(curr.len)
    ensures GoodEnd(input, size, true, start, start + curr.len)
    ensures Cuts(input, start, start + curr.len) == Cuts(input, start, start + old(curr.len) + scan)
    ensures fresh(rest) && fresh(rest.buf) && rest.len == left
    ensures Staged(rest, next, input, start + curr.len, size, left, scan, hash)
  {
    hide HashAt, Cuts, CutPoint, GoodEnd;
    EndOfJob(input, start, size, start + curr.len - left, start + curr.len + scan);
    SumPositive(input, start, start + curr.len + scan);
    rest := SaveRest(curr, left, input, start, size);
  }

  lemma SumPositive(input: seq<bv8>, start: nat, end: nat)
    requires start <= end <= |input| && Cuts(input, start, end) != []
    ensures Sum(Cuts(input, start, end)) > 0
  {
  }

  /** Make `curr` exactly one job, moving whole blocks between the spaces. */
  method Settle(curr: Space<bv8>, next: Space<bv8>, coded: nat, last: nat, left: nat, scan: nat, hash: bv32,
                ghost input: seq<bv8>, ghost start: nat, size: nat)
    returns (next': Space<bv8>, hold: Space?<bv8>, left': nat, scan': nat)
    requires ScanDone(curr, next, coded, last, left, scan, hash, input, start, size)
    modifies curr`len, curr.buf, next`len, next.buf
    ensures Holds(curr, input, start, size) && 0 < curr.len
    ensures GoodEnd(input, size, true, start, start + curr.len)
    ensures Cuts(input, start, start + curr.len) == Cuts(input, start, start + old(curr.len) + scan)
    ensures Staged(next', hold, input, start + curr.len, size, left', scan', hash)
    ensures if hold == null then next' == next else hold == next && fresh(next') && fresh(next'.buf)
    ensures left' != 0 ==> coded != 1 && last == 0 && curr.len + left' == old(curr.len)
    ensures left' == 0 ==> curr.len >= old(curr.len)
    ensures next'.len + curr.len + (if hold == null then 0 else hold.len) == old(curr.len + next.len)
    ensures hold != null ==> hold.len == old(next.len)
    ensures start + curr.len == if old(next.len) == 0 then start + old(curr.len) else CutPoint(input, start, size)
  {
    hide HashAt, Cuts, CutPoint, GoodEnd, Staged;
    CutPointIs(input, start, size, start + curr.len + scan);
    next', hold, left', scan' := next, null, left, scan;
    var len := if coded == 1 then scan else last;
    if len > 0 {
      scan' := FillCurr(curr, next, coded, last, left, scan, hash, input, start, size);
      left' := 0;
    } else if coded != 1 && left != 0 && next.len != 0 {
      hold := next;
      next' := SplitCurr(curr, next, coded, left, scan, hash, input, start, size);
    } else {
      left' := 0;
      KeepCurr(curr, next, coded, left, scan, hash, input, start, size);
    }
  }

  /** The cut point, once the window has been scanned. */
  lemma CutPointIs(input: seq<bv8>, start: nat, size: nat, window: nat)
    requires start <= window <= |input| && window == WindowEnd(input, start, size)
    ensures var c := Cuts(input, start, window);
            CutPoint(input, start, size) == if c == [] then window else start + Sum(c)
  {
  }

  /** `curr` is a job as it stands: its last hit is at its end, or the input ends with it. */
  lemma KeepCurr(curr: Space<bv8>, next: Space<bv8>, coded: nat, left: nat, scan: nat, hash: bv32,
                 input: seq<bv8>, start: nat, size: nat)
    requires ScanDone(curr, next, coded, 0, left, scan, hash, input, start, size)
    requires if coded == 1 then scan == 0 else left == 0 || next.len == 0
    ensures GoodEnd(input, size, true, start, start + curr.len)
    ensures Cuts(input, start, start + curr.len) == Cuts(input, start, start + curr.len + scan)
    ensures Staged(next, null, input, start + curr.len, size, 0, scan, hash)
  {
    hide HashAt, Cuts, CutPoint, GoodEnd;
    EndOfJob(input, start, size, start + curr.len, start + curr.len + scan);
    NoCuts(input, start + curr.len);
  }

  lemma NoCuts(input: seq<bv8>, start: nat)
    requires start <= |input|
    ensures Cuts(input, start, start) == []
  {
  }

  // ---- Dictionaries ----

  /** The dictionary for the job at `start`: its last 32K bytes are those before
      the job. It is shorter than 32K only for the second job, whose first
      `left` bytes then make up a full buffer with the first job. */
  ghost predicate GoodDict(dict: Space?<bv8>, input: seq<bv8>, start: nat, size: nat, left: nat)
    reads dict, if dict == null then {} else {dict.buf}
  {
    start <= |input| &&
    (dict == null ==> start == 0) &&
    (dict != null ==>
      dict.Valid() && Window(dict.Data()) == Window(input[..start]) &&
      (dict.len >= DICT || (dict.Data() == input[..start] && left > 0 && start + left == size)))
  }

  lemma WindowSuffix(prefix: seq<bv8>, last: seq<bv8>, whole: seq<bv8>)
    requires whole == prefix + last
    ensures |last| >= DICT ==> Window(whole) == Window(last)
    ensures |last| < DICT <= |whole| ==>
              Window(whole) == prefix[|prefix| - (DICT - |last|)..] + last
  {
  }

  /** The last `n` bytes of anything with the right window. */
  lemma TailOfWindow(d: seq<bv8>, prefix: seq<bv8>, n: nat)
    requires Window(d) == Window(prefix) && n <= |d| && n <= |prefix| && n <= DICT
    ensures d[|d| - n..] == prefix[|prefix| - n..]
  {
    var w := Window(d);
    assert w[|w| - n..] == d[|d| - n..];
    assert w[|w| - n..] == prefix[|prefix| - n..];
  }

  /** A dictionary of 32K bytes ending with the short job in `curr`. */
  method BuildDict(curr: Space<bv8>, dict: Space<bv8>) returns (built: Space<bv8>)
    requires curr.Valid() && dict.Valid() && curr.len < DICT
    requires DICT - curr.len <= dict.len
    ensures fresh(built) && fresh(built.buf) && built.Valid()
    ensures built.Data() == dict.Data()[dict.len - (DICT - curr.len)..] + curr.Data()
    ensures built.len == DICT
  {
    var len := DICT - curr.len;
    built := new Space<bv8>(DICT);
    built.TakeTail(dict, dict.len - len);
    built.Append(curr, curr.len);
  }

  /** Choose or build the dictionary for the job after `curr`: there is always
      enough of the old one to complete 32K, and none is copied beyond it. */
  method NextDict(curr: Space<bv8>, dict: Space?<bv8>, ghost input: seq<bv8>, ghost start: nat, ghost size: nat,
                  ghost left: nat, ghost left': nat)
    returns (dict': Space<bv8>)
    requires DICT <= size && Holds(curr, input, start, size) && 0 < curr.len
    requires GoodDict(dict, input, start, size, left)
    requires start == 0 ==> dict == null && (curr.len == size || (left' > 0 && curr.len + left' == size))
    requires left != 0 ==> curr.len >= left
    ensures dict' == curr || (fresh(dict') && fresh(dict'.buf))
    ensures GoodDict(dict', input, start + curr.len, size, left')
  {
    hide Window;
    assert input[..start + curr.len] == input[..start] + curr.Data();
    WindowSuffix(input[..start], curr.Data(), input[..start + curr.len]);
    if curr.len >= DICT || dict == null {
      dict' := curr;
      assert start == 0 ==> curr.Data() == input[..curr.len];
    } else {
      WindowLength(dict.Data(), input[..start]);
      TailOfWindow(dict.Data(), input[..start], DICT - curr.len);
      dict' := BuildDict(curr, dict);
      WholeWindow(dict'.Data());
    }
  }

  lemma WindowLength(d: seq<bv8>, prefix: seq<bv8>)
    requires Window(d) == Window(prefix)
    ensures |d| >= DICT <==> |prefix| >= DICT
    ensures |d| == |prefix| || |d| >= DICT
  {
    assert |Window(d)| == |Window(prefix)|;
  }

  lemma WholeWindow(d: seq<bv8>)
    requires |d| == DICT
    ensures Window(d) == d
  {
  }

  // ---- The main loop ----

  /** Jobs that cover the input from 0 to `ends[|jobs|]`, each as it should. */
  ghost predicate GoodJobs(input: seq<bv8>, size: nat, rsync: bool, setdict: bool, jobs: seq<Job>, ends: seq<nat>)
    requires size <= MAX_SIZE
  {
    |ends| == |jobs| + 1 && ends[0] == 0 &&
    forall k :: 0 <= k < |jobs| ==> GoodJob(input, size, rsync, setdict, ends[k], ends[k + 1], jobs[k])
  }

  /** The input side of the main loop before the job that starts at `start`. */
  ghost predicate InputState(next: Space<bv8>, hold: Space?<bv8>, offset: nat, left: nat, scan: nat, hash: bv32,
                             input: seq<bv8>, size: nat, rsync: bool, start: nat)
    reads next, next.buf, hold, if hold == null then {} else {hold.buf}
  {
    Buffered(next, hold, input, start, size, left) &&
    (if rsync then Scanned(input, start, next.len, if hold == null then 0 else hold.len, size, left, scan, hash)
     else left == 0 && next.len == Min(size, |input| - start)) &&
    offset == start + next.len + (if hold == null then 0 else hold.len) &&
    (start == 0 ==> next.len == Min(size, |input|) && left == 0)
  }

  /** The dictionary side, for a dictionary apart from the input buffers. */
  ghost predicate DictState(next: Space<bv8>, hold: Space?<bv8>, dict: Space?<bv8>,
                            input: seq<bv8>, size: nat, setdict: bool, start: nat, left: nat)
    reads next, hold, dict, if dict == null then {} else {dict.buf}
  {
    (start == 0 ==> dict == null) &&
    (if setdict then GoodDict(dict, input, start, size, left) else dict == null) &&
    (dict != null ==> dict.Valid() && Separate(dict, next) && (hold != null ==> Separate(dict, hold)))
  }

  /** Cut a job off `curr`, followed in the input by `next`, when block
      boundaries are wanted. */
  method CutJob(curr: Space<bv8>, next: Space<bv8>, left: nat, scan: nat, hash: bv32,
                ghost input: seq<bv8>, ghost start: nat, size: nat)
    returns (lens: Space<Byte>, next': Space<bv8>, hold: Space?<bv8>, left': nat, scan': nat, hash': bv32)
    requires 0 < size <= MAX_SIZE && 0 < curr.len && Separate(curr, next)
    requires Holds(curr, input, start, size) && Holds(next, input, start + curr.len, size)
    requires next.len < size ==> start + curr.len + next.len == |input|
    requires Scanned(input, start, curr.len, next.len, size, left, scan, hash)
    modifies curr`len, curr.buf, next`len, next.buf
    ensures Holds(curr, input, start, size) && 0 < curr.len
    ensures GoodEnd(input, size, true, start, start + curr.len)
    ensures fresh(lens) && fresh(lens.buf)
    ensures lens.Valid() && lens.Data() == Coded(Cuts(input, start, start + curr.len))
    ensures Staged(next', hold, input, start + curr.len, size, left', scan', hash')
    ensures if hold == null then next' == next else hold == next && fresh(next') && fresh(next'.buf)
    ensures left' != 0 ==> left == 0 && curr.len + left' == old(curr.len)
    ensures left' == 0 ==> curr.len >= old(curr.len)
    ensures next'.len + curr.len + (if hold == null then 0 else hold.len) == old(curr.len + next.len)
    ensures hold != null ==> hold.len == old(next.len)
    ensures start + curr.len == if old(next.len) == 0 then start + old(curr.len) else CutPoint(input, start, size)
  {
    hide HashAt, Cuts, GoodEnd, Staged, Scanned, Holds, CutPoint;
    var last;
    lens, hash', scan', last, left' := ScanJob(curr, next, left, scan, hash, input, start, size);
    next', hold, left', scan' := Settle(curr, next, lens.len, last, left', scan', hash', input, start, size);
  }

  /** Take the held space, or read more input into a new one. */
  method FollowingBuffer(curr: Space<bv8>, hold: Space?<bv8>, offset: nat, left: nat,
                   input: seq<bv8>, ghost start: nat, size: nat)
    returns (next: Space<bv8>, offset': nat)
    requires 0 < size && Buffered(curr, hold, input, start, size, left)
    requires offset == start + curr.len + (if hold == null then 0 else hold.len)
    ensures next == hold || (hold == null && fresh(next) && fresh(next.buf))
    ensures Separate(curr, next) && Holds(next, input, start + curr.len, size)
    ensures next.len < size ==> start + curr.len + next.len == |input|
    ensures offset' == start + curr.len + next.len
    ensures hold == null ==> next.len == Min(size, |input| - (start + curr.len))
  {
    offset' := offset;
    if hold == null {
      next := new Space<bv8>(size);
      offset' := ReadN(input, offset, next);
    } else {
      next := hold;
    }
  }

  /** More input behind the job does not change what has been hashed. */
  lemma ScannedAhead(input: seq<bv8>, start: nat, have: nat, follow: nat, size: nat, scan: nat, hash: bv32)
    requires Scanned(input, start, have, 0, size, 0, scan, hash) && start + have + follow <= |input|
    ensures Scanned(input, start, have, follow, size, 0, scan, hash)
  {
  }

  /** Without block boundaries, or without input, a job is whatever was read. */
  lemma PlainEnd(input: seq<bv8>, size: nat, rsync: bool, start: nat, end: nat)
    requires start <= |input| && end == Min(start + size, |input|)
    requires rsync ==> start == |input|
    ensures GoodEnd(input, size, rsync, start, end)
  {
  }

  /** Cut off the job at `start`: afterwards it is what is in `curr`. */
  method CutOff(curr: Space<bv8>, hold: Space?<bv8>, offset: nat, left: nat, scan: nat, hash: bv32,
                input: seq<bv8>, size: nat, rsync: bool, ghost start: nat)
    returns (lens: Lens, next': Space<bv8>, hold': Space?<bv8>, offset': nat, left': nat, scan': nat, hash': bv32)
    requires DICT <= size <= MAX_SIZE
    requires InputState(curr, hold, offset, left, scan, hash, input, size, rsync, start)
    modifies curr, curr.buf, hold, if hold == null then {} else {hold.buf}
    ensures Holds(curr, input, start, size) && curr.buf == old(curr.buf)
    ensures (0 < curr.len || |input| == start) && (next'.len == 0 <==> start + curr.len == |input|)
    ensures GoodEnd(input, size, rsync, start, start + curr.len)
    ensures lens == if rsync && start < |input| then Lens(Coded(Cuts(input, start, start + curr.len))) else NoLens
    ensures 0 < next'.len ==>
      InputState(next', hold', offset', left', scan', hash', input, size, rsync, start + curr.len)
    ensures left' != 0 ==> left == 0 && curr.len + left' == old(curr.len)
    ensures left' == 0 ==> curr.len >= old(curr.len)
    ensures left != 0 ==> curr.len >= left
    ensures start == 0 && 0 < next'.len ==> old(curr.len) == size
    ensures Separate(curr, next') && (hold' != null ==> Separate(curr, hold'))
    ensures next' == hold || fresh(next')
    ensures hold' == null || hold' == hold || fresh(hold')
    ensures fresh(next'.buf) || (hold != null && next'.buf == old(hold.buf))
    ensures hold' != null ==> fresh(hold'.buf) || (hold != null && hold'.buf == old(hold.buf))
    ensures start + old(curr.len) <= |input|
    ensures var a := Ahead(start, old(curr.len), if hold == null then 0 else old(hold.len));
            start + curr.len == EndOf(input, size, rsync, a) &&
            Ahead(start + curr.len, next'.len, if hold' == null then 0 else hold'.len) ==
              After(|input|, size, a, start + curr.len)
  {
    hide Scanned, GoodEnd, Cuts, HashAt, EncodeAll, Coded, Holds, CutPoint;
    next', offset' := FollowingBuffer(curr, hold, offset, left, input, start, size);
    hold', left', scan', hash' := null, left, scan, hash;
    lens := NoLens;
    HoldsWithin(curr, input, start, size);
    HoldsWithin(next', input, start + curr.len, size);
    if rsync && curr.len > 0 {
      if hold == null {
        ScannedAhead(input, start, curr.len, next'.len, size, scan, hash);
      }
      var list;
      list, next', hold', left', scan', hash' := CutJob(curr, next', left, scan, hash, input, start, size);
      lens := Lens(list.buf[..list.len]);
    } else {
      PlainEnd(input, size, rsync, start, start + curr.len);
    }
  }

  lemma HoldsWithin(space: Space<bv8>, input: seq<bv8>, at: nat, size: nat)
    requires Holds(space, input, at, size)
    ensures space.Valid() && space.buf.Length == size && at + space.len <= |input| && space.len <= size
  {
  }

  /** One pass of the main loop: the job at `start`, and the state for the next. */
  method NextJob(next: Space<bv8>, hold: Space?<bv8>, dict: Space?<bv8>, offset: nat,
                 left: nat, scan: nat, hash: bv32,
                 input: seq<bv8>, size: nat, rsync: bool, setdict: bool, ghost start: nat)
    returns (job: Job, next': Space<bv8>, hold': Space?<bv8>, dict': Space?<bv8>, offset': nat,
             left': nat, scan': nat, hash': bv32, ghost start': nat)
    requires DICT <= size <= MAX_SIZE
    requires InputState(next, hold, offset, left, scan, hash, input, size, rsync, start)
    requires DictState(next, hold, dict, input, size, setdict, start, left)
    modifies next, next.buf, hold, if hold == null then {} else {hold.buf}
    ensures GoodJob(input, size, rsync, setdict, start, start', job)
    ensures start < start' || |input| == start
    ensures start + old(next.len) <= |input|
    ensures var a := Ahead(start, old(next.len), if hold == null then 0 else old(hold.len));
            start' == EndOf(input, size, rsync, a) &&
            Ahead(start', next'.len, if hold' == null then 0 else hold'.len) == After(|input|, size, a, start')
    ensures job.more ==>
      InputState(next', hold', offset', left', scan', hash', input, size, rsync, start') &&
      DictState(next', hold', dict', input, size, setdict, start', left')
    ensures next' == hold || fresh(next')
    ensures hold' == null || hold' == hold || fresh(hold')
    ensures fresh(next'.buf) || (hold != null && next'.buf == old(hold.buf))
    ensures hold' != null ==> fresh(hold'.buf) || (hold != null && hold'.buf == old(hold.buf))
    ensures dict' == null || dict' == dict || dict' == next || fresh(dict')
  {
    hide Scanned, GoodEnd, Cuts, HashAt, Window, InputState;
    ghost var have := next.len;
    var lens;
    lens, next', hold', offset', left', scan', hash' :=
      CutOff(next, hold, offset, left, scan, hash, input, size, rsync, start);
    start' := start + next.len;
    dict' := dict;
    var more := next'.len != 0;
    job := Job(next.buf[..next.len], lens, if dict == null then NoDict else Dict(dict.buf[..dict.len]), more);
    if more && setdict {
      dict' := NextDict(next, dict, input, start, size, left, left');
    }
  }

  /** The jobs so far cover the input from its start; each is right, ends where
      the buffers say, and announces the next one. */
  ghost predicate CutJobs(input: seq<bv8>, size: nat, rsync: bool, setdict: bool, jobs: seq<Job>, ends: seq<nat>, more: bool)
    requires size <= MAX_SIZE
  {
    GoodJobs(input, size, rsync, setdict, jobs, ends) &&
    (forall k :: 0 <= k < |jobs| ==> (jobs[k].more <==> k < |jobs| - 1 || more)) &&
    (forall k :: 0 <= k < |jobs| ==> ends[k] < ends[k + 1] || |input| == 0) &&
    (forall k :: 0 <= k <= |jobs| ==> ends[k] == Layout(input, size, rsync, k).start) &&
    ends[|jobs|] <= |input| &&
    if more then ends[|jobs|] < |input| || jobs == [] else ends[|jobs|] == |input| && jobs != []
  }

  /** The ends of the first jobs of an input. */
  function Ends(input: seq<bv8>, size: nat, rsync: bool, n: nat): (ends: seq<nat>)
    ensures |ends| == n + 1 && forall k :: 0 <= k <= n ==> ends[k] == Layout(input, size, rsync, k).start
  {
    seq(n + 1, k requires 0 <= k => Layout(input, size, rsync, k).start)
  }

  lemma EndsAre(input: seq<bv8>, size: nat, rsync: bool, setdict: bool, jobs: seq<Job>, ends: seq<nat>)
    requires size <= MAX_SIZE && CutJobs(input, size, rsync, setdict, jobs, ends, false)
    ensures ends == Ends(input, size, rsync, |jobs|)
  {
    hide Layout, GoodJob;
  }

  lemma NoJobs(input: seq<bv8>, size: nat, rsync: bool, setdict: bool)
    requires size <= MAX_SIZE
    ensures CutJobs(input, size, rsync, setdict, [], [0], true)
  {
  }

  lemma OneMoreJob(input: seq<bv8>, size: nat, rsync: bool, setdict: bool, jobs: seq<Job>, ends: seq<nat>, job: Job, end: nat)
    requires size <= MAX_SIZE && CutJobs(input, size, rsync, setdict, jobs, ends, true)
    requires GoodJob(input, size, rsync, setdict, ends[|jobs|], end, job)
    requires ends[|jobs|] < end || |input| == ends[|jobs|]
    requires end == Layout(input, size, rsync, |jobs| + 1).start
    ensures CutJobs(input, size, rsync, setdict, jobs + [job], ends + [end], job.more)
  {
    hide Layout, GoodEnd, Cuts, Window;
    JobEnds(input, size, rsync, setdict, ends[|jobs|], end, job);
    var js, es := jobs + [job], ends + [end];
    forall k | 0 <= k < |js| ensures GoodJob(input, size, rsync, setdict, es[k], es[k + 1], js[k]) {
      assert k < |jobs| ==> GoodJob(input, size, rsync, setdict, ends[k], ends[k + 1], jobs[k]);
    }
  }

  /** What it is for a job to be right: its bytes, and the last 32K bytes before
      them as its dictionary, if wanted. */
  lemma JobIs(input: seq<bv8>, size: nat, rsync: bool, setdict: bool, start: nat, end: nat, job: Job)
    requires 0 < size <= MAX_SIZE && GoodJob(input, size, rsync, setdict, start, end, job)
    ensures start <= end <= |input| && job.data == input[start..end] && (job.more <==> end < |input|)
    ensures rsync && start < |input| ==> job.lens == Lens(Coded(Cuts(input, start, end)))
    ensures if setdict && start > 0 then
              var n := Min(start, 32768);
              job.dict.Dict? && |job.dict.bytes| >= n &&
              job.dict.bytes[|job.dict.bytes| - n..] == input[start - n..start]
            else job.dict == NoDict
  {
    hide Cuts, CutPoint;
  }

  /** Its end: a full buffer or the end of the input; with block boundaries and more
      to follow, the last hit in a buffer's length, or all of that if there is none. */
  lemma JobEndIs(input: seq<bv8>, size: nat, rsync: bool, start: nat, end: nat)
    requires size > 0 && GoodEnd(input, size, rsync, start, end)
    ensures !rsync ==> end == Min(start + size, |input|)
    ensures rsync && end < |input| ==>
              Hit(input, end) || (end == start + size && forall p :: start < p <= end ==> !Hit(input, p))
    ensures rsync && end < |input| ==>
              forall p :: end < p <= Min(start + size, |input|) ==> !Hit(input, p)
  {
    hide Cuts, Hit;
    if rsync && end < |input| {
      NoHitAfterLast(input, start, Min(start + size, |input|));
    }
  }

  /** Cut the whole input into jobs. Together the jobs are exactly the input, in
      order; `more` is false for the last one only; every job has the block
      boundaries and the dictionary it should, and ends where what is buffered
      and the last hit say. */
  method ParallelCompress2(input: seq<bv8>, size: nat, rsync: bool, setdict: bool)
    returns (jobs: seq<Job>)
    requires DICT <= size <= MAX_SIZE
    ensures CutJobs(input, size, rsync, setdict, jobs, Ends(input, size, rsync, |jobs|), false)
  {
    hide GoodJob, InputState, DictState, EndOf, After, Layout, CutJobs;
    jobs := [];
    ghost var ends := [0];
    var next := new Space<bv8>(size);
    var offset := ReadN(input, 0, next);
    var hold: Space?<bv8>, dict: Space?<bv8> := null, null;
    var scan: nat, hash, left: nat := 0, RSYNCHIT, 0;
    ghost var start: nat := 0;
    InitialState(next, input, size, rsync, setdict);
    FirstLayout(input, size, rsync);
    NoJobs(input, size, rsync, setdict);
    var more := true;
    while more
      invariant CutJobs(input, size, rsync, setdict, jobs, ends, more)
      invariant |ends| == |jobs| + 1 && start == ends[|jobs|] <= |input|
      invariant more ==> InputState(next, hold, offset, left, scan, hash, input, size, rsync, start)
      invariant more ==> DictState(next, hold, dict, input, size, setdict, start, left)
      invariant more ==>
        Ahead(start, next.len, if hold == null then 0 else hold.len) == Layout(input, size, rsync, |jobs|)
      invariant fresh(next) && fresh(next.buf)
      invariant hold != null ==> fresh(hold) && fresh(hold.buf)
      decreases more, |input| - start
    {
      var job;
      ghost var end;
      NextLayout(input, size, rsync, |jobs|);
      job, next, hold, dict, offset, left, scan, hash, end :=
        NextJob(next, hold, dict, offset, left, scan, hash, input, size, rsync, setdict, start);
      JobEnds(input, size, rsync, setdict, start, end, job);
      OneMoreJob(input, size, rsync, setdict, jobs, ends, job, end);
      jobs, ends, start := jobs + [job], ends + [end], end;
      more := job.more;
    }
    EndsAre(input, size, rsync, setdict, jobs, ends);
  }

  lemma FirstLayout(input: seq<bv8>, size: nat, rsync: bool)
    ensures Layout(input, size, rsync, 0) == Ahead(0, Min(size, |input|), 0)
  {
  }

  lemma NextLayout(input: seq<bv8>, size: nat, rsync: bool, k: nat)
    ensures var a := Layout(input, size, rsync, k);
            var end := EndOf(input, size, rsync, a);
            Layout(input, size, rsync, k + 1) == After(|input|, size, a, end) &&
            After(|input|, size, a, end).start == end
  {
    hide EndOf;
  }

  lemma JobEnds(input: seq<bv8>, size: nat, rsync: bool, setdict: bool, start: nat, end: nat, job: Job)
    requires size <= MAX_SIZE && GoodJob(input, size, rsync, setdict, start, end, job)
    ensures start <= end <= |input| && (job.more <==> end < |input|)
  {
  }

  lemma InitialState(next: Space<bv8>, input: seq<bv8>, size: nat, rsync: bool, setdict: bool)
    requires DICT <= size && Holds(next, input, 0, size) && next.len == Min(size, |input|)
    ensures InputState(next, null, next.len, 0, 0, RSYNCHIT, input, size, rsync, 0)
    ensures DictState(next, null, null, input, size, setdict, 0, 0)
  {
    assert input[..0] == [];
  }
}
