/** An input for which three input buffers are too few: its only hash hit lies
    in the second buffer, so that the second job splits its buffer while the
    first one's is its dictionary. */
module SplitExample {
  import opened Splitter
  import opened Blocks
  import opened RollingHash
  import opened Compressor
  import opened Pipeline
  import opened PipelineProgress
  import opened PipelineEnd
  import opened PipelineStuck
  import opened EndToEnd
  import opened Checks

  const SIZE: nat := 32768

  const LENGTH: nat := 65537

  /** Where the hit is prepared, and where it is. */
  const PLACE: nat := 40000
  const HIT: nat := 40004

  function ByteAt(i: nat): bv8 {
    if i == PLACE then 0xff else if i == PLACE + 3 then 7 else 0
  }

  function Input(): (s: seq<bv8>)
    ensures |s| == LENGTH && forall i :: 0 <= i < LENGTH ==> s[i] == ByteAt(i)
  {
    seq(LENGTH, i requires 0 <= i < LENGTH => ByteAt(i))
  }

  // ---- The only hit ----

  lemma {:induction false} ZerosFold(s: seq<bv8>)
    requires forall i :: 0 <= i < |s| ==> s[i] == 0
    ensures Fold(0, s) == 0
    decreases |s|
  {
    if s != [] {
      assert RollingHash.Step(0, 0) == 0;
      ZerosFold(s[1..]);
    }
  }

  lemma ZeroHash()
    ensures HashAt(Input(), PLACE) == 0
  {
    var s := Input()[..PLACE];
    hide Fold, Input;
    Forgets(RSYNCHIT, 0, s);
    ZerosFold(s);
  }

  lemma ZeroByteNoHit(h: bv32)
    ensures RollingHash.Step(h, 0) != RSYNCHIT
  {
  }

  lemma FourSteps()
    ensures RollingHash.Step(0, 0xff) == 0xff && RollingHash.Step(0xff, 0) == 0x1fe && RollingHash.Step(0x1fe, 0) == 0x3fc && RollingHash.Step(0x3fc, 7) == RSYNCHIT
  {
  }

  lemma OnlyHit(q: nat)
    requires 0 < q <= LENGTH
    ensures Hit(Input(), q) <==> q == HIT
  {
    hide HashAt, RollingHash.Step, Input;
    var input := Input();
    HashNext(input, q - 1);
    if input[q - 1] == 0 {
      ZeroByteNoHit(HashAt(input, q - 1));
    }
    if PLACE < q <= HIT {
      ZeroHash();
      FourSteps();
      HashNext(input, PLACE);
      HashNext(input, PLACE + 1);
      HashNext(input, PLACE + 2);
      HashNext(input, PLACE + 3);
    }
  }

  // ---- The jobs ----

  lemma NoHitNoCuts(start: nat, end: nat)
    requires start <= end <= LENGTH && !(start < HIT <= end)
    ensures Cuts(Input(), start, end) == []
  {
    hide Hit, Input;
    forall p | start < p <= end ensures !Hit(Input(), p) {
      OnlyHit(p);
    }
    CutsExtend(Input(), start, start, end);
    NoCuts(Input(), start);
  }

  lemma OneHitCuts(start: nat, end: nat)
    requires start < HIT <= end <= LENGTH
    ensures Cuts(Input(), start, end) != [] && start + Sum(Cuts(Input(), start, end)) == HIT
  {
    hide Hit, Input, Cuts;
    OnlyHit(HIT);
    NoHitAfterLast(Input(), start, end);
    var last := start + Sum(Cuts(Input(), start, end));
    if Cuts(Input(), start, end) == [] {
      NoSum();
    } else {
      CutsPositive(Input(), start, end);
      OnlyHit(last);
    }
  }

  lemma NoSum()
    ensures Sum([]) == 0
  {
  }

  const ENDS: seq<nat> := [0, SIZE, HIT, LENGTH]

  /** The job between two ends, with everything before it as dictionary. */
  function JobBetween(start: nat, end: nat): Job
    requires start <= end <= LENGTH
  {
    Job(Input()[start..end], if start < LENGTH then Lens(Coded(Cuts(Input(), start, end))) else NoLens,
        if start > 0 then Dict(Input()[..start]) else NoDict, end < LENGTH)
  }

  function Jobs(): seq<Job> {
    [JobBetween(0, SIZE), JobBetween(SIZE, HIT), JobBetween(HIT, LENGTH)]
  }

  lemma FirstEnd()
    ensures CutPoint(Input(), 0, SIZE) == SIZE
  {
    hide Input, Cuts;
    NoHitNoCuts(0, SIZE);
  }

  lemma SecondEnd()
    ensures CutPoint(Input(), SIZE, SIZE) == HIT
  {
    hide Input, Cuts;
    OneHitCuts(SIZE, 2 * SIZE);
  }

  lemma ThirdEnd()
    ensures CutPoint(Input(), HIT, SIZE) == LENGTH
  {
    hide Input, Cuts;
    NoHitNoCuts(HIT, LENGTH);
  }

  lemma LayoutIs()
    ensures Layout(Input(), SIZE, true, 0) == Ahead(0, SIZE, 0)
    ensures Layout(Input(), SIZE, true, 1) == Ahead(SIZE, SIZE, 0)
    ensures Layout(Input(), SIZE, true, 2) == Ahead(HIT, 2 * SIZE - HIT, 1)
    ensures Layout(Input(), SIZE, true, 3).start == LENGTH
  {
    hide Input, CutPoint;
    FirstEnd();
    SecondEnd();
    ThirdEnd();
    FirstLayout(Input(), SIZE, true);
    NextLayout(Input(), SIZE, true, 0);
    NextLayout(Input(), SIZE, true, 1);
    NextLayout(Input(), SIZE, true, 2);
  }

  lemma JobIsGood(start: nat, end: nat)
    requires start < end <= LENGTH && GoodEnd(Input(), SIZE, true, start, end)
    ensures GoodJob(Input(), SIZE, true, true, start, end, JobBetween(start, end))
  {
    hide Input, Cuts, Window, GoodEnd;
  }

  lemma CutIntoJobs()
    ensures CutJobs(Input(), SIZE, true, true, Jobs(), ENDS, false)
  {
    hide Input, Cuts, Window, CutPoint, Layout, GoodJob, JobBetween;
    LayoutIs();
    FirstEnd();
    SecondEnd();
    JobIsGood(0, SIZE);
    JobIsGood(SIZE, HIT);
    JobIsGood(HIT, LENGTH);
    JobsAnnounce();
  }

  lemma JobsAnnounce()
    ensures Jobs()[0].more && Jobs()[1].more && !Jobs()[2].more
  {
    hide Input;
  }

  // ---- The run that gets stuck ----

  /** With any compressor, any number of threads and three input buffers, there
      is a run on this input in which nobody can go on, and the stream is not
      complete. */
  lemma StuckRun(procs: nat, zlib: bool, header: seq<bv8>, deflate: (Dict, seq<bv8>, Lens, bool) -> seq<bv8>,
                 trailer: (nat, nat, Check, nat) -> seq<bv8>) returns (c: Config, run: seq<State>)
    requires procs > 0
    ensures c == Config(Input(), SIZE, Jobs(), ENDS, true, procs, 3, zlib, header, deflate, trailer)
    ensures Compresses(c, true) && IsRun(c, run)
    ensures !CanGo(c, run[|run| - 1]) && run[|run| - 1].main.phase != Done
  {
    hide Input, Jobs, CutJobs, CanGo, NeedsFour, Sound, Initial, Goes;
    c := Config(Input(), SIZE, Jobs(), ENDS, true, procs, 3, zlib, header, deflate, trailer);
    CutIntoJobs();
    CompressesSound(c, true);
    SecondNeedsFour(c);
    FirstRun(c);
    run := RunToItsEnd(c, [Initial(c)]);
    ThreeExactly(c, run);
  }

  lemma FirstRun(c: Config)
    ensures IsRun(c, [Initial(c)])
  {
  }

  lemma SecondNeedsFour(c: Config)
    requires Compresses(c, true) && c.input == Input() && c.size == SIZE && c.jobs == Jobs() && c.ends == ENDS && c.setdict
    ensures NeedsFour(c)
  {
    hide Compresses, Input, Layout, Plan, Jobs;
    ThreeJobs();
    PlanIsLayout(c, true, 1);
    LayoutIs();
    NeedsAtJob(c, 1);
  }

  lemma ThreeJobs()
    ensures |Jobs()| == 3
  {
    hide JobBetween;
  }
}
