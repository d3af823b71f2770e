/** From the input to the stream: the jobs that the main thread cuts
    (module Compressor), compressed by the pipeline (module Pipeline). */
module EndToEnd {
  import opened Basics
  import opened Splitter
  import opened Blocks
  import opened RollingHash
  import opened Compressor
  import opened Pipeline
  import opened PipelineOutput
  import opened PipelineProgress
  import opened PipelineEnd
  import opened Checks
  import Adler
  import Crc

  /** The pipeline works on the jobs that `ParallelCompress2` cuts. */
  ghost predicate Compresses(c: Config, rsync: bool) {
    DICT <= c.size <= MAX_SIZE && c.procs > 0 &&
    CutJobs(c.input, c.size, rsync, c.setdict, c.jobs, c.ends, false)
  }

  lemma CutFacts(c: Config, rsync: bool)
    requires Compresses(c, rsync)
    ensures DICT <= c.size <= MAX_SIZE && c.procs > 0
    ensures |c.jobs| > 0 && |c.ends| == |c.jobs| + 1 && c.ends[0] == 0 && c.ends[|c.jobs|] == |c.input|
    ensures forall k :: 0 <= k < |c.jobs| ==> (c.jobs[k].more <==> k < |c.jobs| - 1)
    ensures forall k :: 0 <= k <= |c.jobs| ==> c.ends[k] == Layout(c.input, c.size, rsync, k).start
    ensures forall k :: 0 <= k < |c.jobs| ==> GoodJob(c.input, c.size, rsync, c.setdict, c.ends[k], c.ends[k + 1], c.jobs[k])
    ensures forall k :: 0 <= k < |c.jobs| ==> c.ends[k] < c.ends[k + 1] || |c.input| == 0
  {
    hide GoodJob, Layout;
  }

  // ---- What is buffered ----

  /** The main thread of the pipeline buffers what the one that cuts does. */
  lemma {:induction false} PlanIsLayout(c: Config, rsync: bool, k: nat)
    requires Compresses(c, rsync) && k <= |c.jobs|
    ensures Plan(c, k) == Layout(c.input, c.size, rsync, k)
    decreases k
  {
    hide Compresses, EndOf, GoodJob;
    CutFacts(c, rsync);
    if k > 0 {
      PlanIsLayout(c, rsync, k - 1);
      NextLayout(c.input, c.size, rsync, k - 1);
    }
  }

  lemma JobIsSound(c: Config, rsync: bool, k: nat)
    requires Compresses(c, rsync) && k < |c.jobs|
    ensures |c.ends| == |c.jobs| + 1 && SoundJob(c, k)
  {
    hide Compresses, Cuts, Window, CutPoint, Layout, Plan;
    CutFacts(c, rsync);
    PlanIsLayout(c, rsync, k);
    PlanIsLayout(c, rsync, k + 1);
    NextLayout(c.input, c.size, rsync, k);
    assert GoodJob(c.input, c.size, rsync, c.setdict, c.ends[k], c.ends[k + 1], c.jobs[k]);
    if |c.input| == 0 {
      assert GoodJob(c.input, c.size, rsync, c.setdict, c.ends[0], c.ends[1], c.jobs[0]);
    }
  }

  lemma CompressesSound(c: Config, rsync: bool)
    requires Compresses(c, rsync)
    ensures Sound(c)
  {
    hide Compresses, SoundJob, GoodJob, Layout;
    CutFacts(c, rsync);
    forall k | 0 <= k < |c.jobs| ensures SoundJob(c, k) {
      JobIsSound(c, rsync, k);
    }
  }

  // ---- The jobs are the input ----

  lemma {:induction false} JobsAreInput(c: Config, rsync: bool, k: nat)
    requires Compresses(c, rsync) && k <= |c.jobs|
    ensures |c.ends| == |c.jobs| + 1 && c.ends[k] <= |c.input| && InputOf(c, k) == c.input[..c.ends[k]]
    decreases k
  {
    hide Compresses, GoodEnd, Cuts, Window;
    CutFacts(c, rsync);
    if k > 0 {
      JobsAreInput(c, rsync, k - 1);
      JobSpan(c.input, c.size, rsync, c.setdict, c.ends[k - 1], c.ends[k], c.jobs[k - 1]);
    }
  }

  lemma JobSpan(input: seq<bv8>, size: nat, rsync: bool, setdict: bool, start: nat, end: nat, job: Job)
    requires size <= MAX_SIZE && GoodJob(input, size, rsync, setdict, start, end, job)
    ensures start <= end <= |input| && job.data == input[start..end]
    ensures input[..end] == input[..start] + job.data
  {
  }

  // ---- The dictionaries ----

  /** The first two jobs fill a buffer, if more input follows them. */
  lemma TwoJobsFill(input: seq<bv8>, size: nat, rsync: bool, e1: nat, e2: nat)
    requires GoodEnd(input, size, rsync, 0, e1) && GoodEnd(input, size, rsync, e1, e2) && e2 < |input|
    ensures e2 >= size
  {
    if rsync {
      var w := Min(size, |input|);
      NoHitAfterLast(input, 0, w);
      var w2 := Min(e1 + size, |input|);
      NoHitAfterLast(input, e1, w2);
      if Cuts(input, e1, w2) != [] {
        CutsPositive(input, e1, w2);
      }
    }
  }

  lemma CutsPositive(input: seq<bv8>, start: nat, end: nat)
    requires start <= end <= |input| && Cuts(input, start, end) != []
    ensures start < start + Sum(Cuts(input, start, end)) <= end
  {
  }

  /** What the dictionary of job `k` is to contain at least: 32K bytes, unless
      it is that of the second job, which is then everything before the job. */
  ghost predicate DictRight(c: Config, k: nat)
    requires k <= |c.jobs| && k < |c.ends|
  {
    DictOf(c, k).Dict? && c.ends[k] <= |c.input| &&
    (var d := DictOf(c, k).bytes;
      Window(d) == Window(c.input[..c.ends[k]]) &&
      (|d| >= DICT || (k == 1 && d == c.input[..c.ends[1]])))
  }

  /** The next dictionary is right, and no byte before the start of the old one
      is asked for. */
  lemma NextDictRight(d: seq<bv8>, data: seq<bv8>, before: seq<bv8>, whole: seq<bv8>)
    requires whole == before + data && Window(d) == Window(before)
    requires |data| < DICT ==> |d| >= DICT || (d == before && |whole| >= DICT)
    ensures |data| < DICT ==> DICT - |data| <= |d|
    ensures var n := DictAfter(Dict(d), data); Window(n) == Window(whole) && |n| >= DICT
  {
    hide Window;
    WindowSuffix(before, data, whole);
    if |data| < DICT {
      WindowLength(d, before);
      TailOfWindow(d, before, DICT - |data|);
      WholeWindow(Tail(d, DICT - |data|) + data);
    }
  }

  lemma {:induction false} Dictionaries(c: Config, rsync: bool, k: nat)
    requires Compresses(c, rsync) && c.setdict && 0 < k < |c.jobs|
    ensures k < |c.ends| && DictRight(c, k)
    decreases k
  {
    hide Compresses, GoodEnd, Cuts, Window, DictAfter;
    CutFacts(c, rsync);
    var input, ends := c.input, c.ends;
    assert GoodJob(input, c.size, rsync, c.setdict, ends[k - 1], ends[k], c.jobs[k - 1]);
    JobSpan(input, c.size, rsync, c.setdict, ends[k - 1], ends[k], c.jobs[k - 1]);
    if k == 1 {
      FirstDict(c);
      assert input[..0] == [];
    } else {
      Dictionaries(c, rsync, k - 1);
      assert GoodJob(input, c.size, rsync, c.setdict, ends[0], ends[1], c.jobs[0]);
      assert GoodJob(input, c.size, rsync, c.setdict, ends[1], ends[2], c.jobs[1]);
      if k == 2 {
        TwoJobsFill(input, c.size, rsync, ends[1], ends[2]);
      }
      NextDictRight(DictOf(c, k - 1).bytes, c.jobs[k - 1].data, input[..ends[k - 1]], input[..ends[k]]);
    }
  }

  lemma FirstDict(c: Config)
    requires |c.jobs| > 0 && c.setdict
    ensures DictOf(c, 1) == Dict(c.jobs[0].data)
  {
    assert DictOf(c, 0) == NoDict;
  }

  /** What a job compresses to depends only on the last 32K bytes before it, its
      own bytes, its block boundaries, and whether it is the last one. */
  lemma ProducedIs(c: Config, rsync: bool, k: nat)
    requires Compresses(c, rsync) && k < |c.jobs|
    ensures |c.ends| == |c.jobs| + 1 && c.ends[k] <= c.ends[k + 1] <= |c.input|
    ensures Produced(c, k) ==
      c.deflate(if c.setdict && k > 0 then Dict(c.input[if c.ends[k] <= 32768 then 0 else c.ends[k] - 32768..c.ends[k]]) else NoDict,
                c.input[c.ends[k]..c.ends[k + 1]], c.jobs[k].lens, k < |c.jobs| - 1)
    ensures c.jobs[k].lens ==
      if rsync && c.ends[k] < |c.input| then Lens(Coded(Cuts(c.input, c.ends[k], c.ends[k + 1]))) else NoLens
  {
    hide Compresses, GoodEnd, Cuts, Window, DictAfter;
    CutFacts(c, rsync);
    assert GoodJob(c.input, c.size, rsync, c.setdict, c.ends[k], c.ends[k + 1], c.jobs[k]);
    JobSpan(c.input, c.size, rsync, c.setdict, c.ends[k], c.ends[k + 1], c.jobs[k]);
    if c.setdict && k > 0 {
      Dictionaries(c, rsync, k);
      WindowIs(c.input, c.ends[k]);
    }
  }

  lemma WindowIs(input: seq<bv8>, start: nat)
    requires start <= |input|
    ensures Window(input[..start]) == input[if start <= 32768 then 0 else start - 32768..start]
  {
  }

  // ---- Main result ----

  /** Without block boundaries every job uses up its buffer, so no job needs a
      fourth one. */
  lemma PlainNeedsThree(c: Config)
    requires Compresses(c, false)
    ensures !NeedsFour(c)
  {
    hide Compresses, Layout, CutPoint, GoodJob;
    CutFacts(c, false);
    forall k | 0 < k < |c.jobs| ensures !NeedsFourAt(c, k) {
      PlanIsLayout(c, false, k);
      NextLayout(c.input, c.size, false, k);
    }
  }

  /** However the threads are interleaved, a run that goes on as long as it can
      ends, and its output is the header, what the jobs cut from the input
      compress to, in order, and a trailer with the length and the check value
      of the input. Four input buffers are enough, and three when block
      boundaries are not wanted. */
  lemma CompressionIsRight(c: Config, rsync: bool, run: seq<State>)
    requires Compresses(c, rsync) && (c.limit >= 4 || (c.limit >= 3 && !rsync))
    requires IsRun(c, run) && !CanGo(c, run[|run| - 1])
    ensures |run| <= 20 * |c.jobs| + 11
    ensures var n := |c.jobs|;
            run[|run| - 1].writer.output ==
              c.header + OutputOf(c, n) +
              c.trailer(|c.input| % 0x1_0000_0000_0000_0000, |OutputOf(c, n)| % 0x1_0000_0000_0000_0000,
                if c.zlib then
                  AdlerValue(65536 * (Adler.RunningSums(c.input) % 65521) + (1 + Adler.ByteSum(c.input)) % 65521)
                else CrcValue(Crc.TableCrc(c.input)),
                |c.header|)
  {
    CheckIs(c.zlib, c.input);
    hide Compresses, Initial, Goes, CheckOf, OutputOf, InputOf, CanGo, NeedsFour;
    JobsAreInput(c, rsync, |c.jobs|);
    CutFacts(c, rsync);
    assert c.input[..|c.input|] == c.input;
    CompressesSound(c, rsync);
    EveryRunEnds(c, run);
    if !rsync {
      PlainNeedsThree(c);
    }
    CompletedRun(c, run);
  }

  // ---- Block boundaries that survive an edit ----

  /** Two inputs that share a run of bytes have the same block boundaries in it,
      wherever their jobs begin, from twelve bytes after its start on. */
  lemma SharedBoundaries(x: seq<bv8>, y: seq<bv8>, i: nat, j: nat, n: nat,
                         startX: nat, endX: nat, startY: nat, endY: nat)
    requires RSYNCBITS <= n && i + n <= |x| && j + n <= |y| && x[i..i + n] == y[j..j + n]
    requires startX < i + n <= endX <= |x| && startY < j + n <= endY <= |y|
    ensures Boundary(startX, Cuts(x, startX, endX), i + n) <==> Boundary(startY, Cuts(y, startY, endY), j + n)
  {
    hide Boundary, Cuts, Hit;
    Resynchronises(x, y, i, j, n);
    BoundariesAreHits(x, startX, endX, i + n);
    BoundariesAreHits(y, startY, endY, j + n);
  }
}
