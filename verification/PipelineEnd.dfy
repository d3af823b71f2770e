/** Every run of the pipeline ends, and ends well. */
module PipelineEnd {
  import opened Basics
  import opened Splitter
  import opened Pipeline
  import opened PipelineClaims
  import opened PipelineData
  import opened PipelineOutput
  import opened PipelineProgress
  import opened Checks

  // ---- A measure that every step decreases ----

  function PhaseLeft(p: Phase): nat {
    match p
    case First => 7
    case Top => 6
    case NeedNext => 5
    case Cut => 4
    case NeedRest => 3
    case Offer => 2
    case Put => 1
    case Last => 2
    case Joining => 1
    case Done => 0
  }

  function WriterLeft(p: WriterPhase): nat {
    match p
    case Starting => 3
    case Running => 2
    case Trailing => 1
    case Ended => 0
  }

  function WorkLeft(w: Work): nat {
    8 - Rank(w.compressing) + 5 - Progress(w.writing)
  }

  function WorksLeft(works: seq<Work>): nat
    decreases |works|
  {
    if works == [] then 0 else WorksLeft(works[..|works| - 1]) + WorkLeft(works[|works| - 1])
  }

  /** A bound on the number of steps that all threads together can still take. */
  function StepsLeft(c: Config, s: State): int {
    20 * (|c.jobs| - |s.works|) + PhaseLeft(s.main.phase) + WorksLeft(s.works) + WriterLeft(s.writer.phase)
  }

  lemma {:induction false} WorksLeftAlong(works: seq<Work>, works': seq<Work>, k: nat)
    requires k < |works| && |works'| == |works|
    requires forall j :: 0 <= j < |works| && j != k ==> works'[j] == works[j]
    ensures WorksLeft(works') - WorksLeft(works) == WorkLeft(works'[k]) - WorkLeft(works[k])
    decreases |works|
  {
    hide WorkLeft;
    var n := |works| - 1;
    if k < n {
      WorksLeftAlong(works[..n], works'[..n], k);
    } else {
      assert works[..n] == works'[..n];
    }
  }

  lemma WorksLeftPut(works: seq<Work>, w: Work)
    ensures WorksLeft(works + [w]) == WorksLeft(works) + WorkLeft(w)
  {
    assert (works + [w])[..|works|] == works;
  }

  lemma MainDecreases(c: Config, s: State, step: Step)
    requires MainOk(c, s) && MainCan(c, s, step)
    ensures StepsLeft(c, MainStep(c, s, step)) < StepsLeft(c, s)
  {
    hide CanGet, Tail, Drop, Use, Fill, Hand, WorksLeft, CheckOf, Copies, DictOf, MainOk, Contents;
    if step.PutJob? {
      var w := Work(s.main.curr.value, More(s), s.main.past, NoDict, None, CheckOf(c.zlib, []), Queued, Unlisted);
      WorksLeftPut(s.works, w);
    }
  }

  lemma CompressDecreases(c: Config, s: State, step: Step)
    requires ShapeOk(c, s) && ListsOk(s) && CompressCan(c, s, step)
    ensures StepsLeft(c, CompressStep(c, s, step)) < StepsLeft(c, s)
  {
    hide ShapeOk, CanGet, Drop, Use, Fill, Hand, WorksLeft, CheckOf, Insert, FirstOf, At;
    var k := if step.Take? then s.waiting[0] else step.k;
    if step.InsertJob? {
      UnlistedBefore(c, s, k);
    }
    WorksLeftAlong(s.works, CompressStep(c, s, step).works, k);
  }

  lemma WriterDecreases(c: Config, s: State, step: Step)
    requires ListsOk(s) && WriterCan(c, s, step)
    ensures StepsLeft(c, WriterStep(c, s, step)) < StepsLeft(c, s)
  {
    hide Drop, WorksLeft, CheckOf, FirstOf, Combine, Add, At;
    if step.Pop? {
      FirstIsListed(s);
      WorksLeftAlong(s.works, DoPop(s).works, s.list[0]);
    } else if step.Count? || step.Write? || step.AddCheck? {
      WorksLeftAlong(s.works, WriterStep(c, s, step).works, s.writer.seqno);
    }
  }

  lemma StepAlive(c: Config, s: State, step: Step)
    requires Alive(c, s) && Can(c, s, step)
    ensures Alive(c, Next(c, s, step)) && StepsLeft(c, Next(c, s, step)) < StepsLeft(c, s)
  {
    hide ShapeOk, CountsOk, Held, ListsOk, WriterOk, MainStep, CompressStep, WriterStep,
      MainCan, CompressCan, WriterCan, StepsLeft, LimitOk, ThreadsOk, PoolsOk, Sees;
    StepSafe(c, s, step);
    if MainCan(c, s, step) {
      MainSees(c, s);
      PoolsMain(c, s, step);
      LimitMain(c, s, step);
      ThreadsMain(c, s, step);
      ShapeGivesMain(c, s);
      MainDecreases(c, s, step);
    } else if CompressCan(c, s, step) {
      CompressStays(c, s, step);
      SameNumber(c, s, step);
      PoolsAside(c, s, CompressStep(c, s, step));
      LimitCompress(c, s, step);
      ThreadsCompress(c, s, step);
      CompressDecreases(c, s, step);
    } else {
      WriterStays(c, s, step);
      SameNumber(c, s, step);
      PoolsAside(c, s, WriterStep(c, s, step));
      LimitWriter(c, s, step);
      ThreadsWriter(c, s, step);
      WriterDecreases(c, s, step);
    }
  }

  /** Only the main thread makes jobs. */
  lemma SameNumber(c: Config, s: State, step: Step)
    ensures CompressCan(c, s, step) ==> |CompressStep(c, s, step).works| == |s.works|
    ensures WriterCan(c, s, step) ==> |WriterStep(c, s, step).works| == |s.works|
  {
    hide CanGet, CheckOf, Insert, FirstOf, Combine, Add, At;
  }

  lemma ShapeGivesMain(c: Config, s: State)
    requires ShapeOk(c, s)
    ensures MainOk(c, s)
  {
  }

  lemma InitialAlive(c: Config)
    requires Sound(c)
    ensures Alive(c, Initial(c)) && StepsLeft(c, Initial(c)) == 20 * |c.jobs| + 10
  {
    hide Safe;
    InitialSafe(c);
    assert InputIds(Initial(c).spaces) == {} && Busy(Initial(c).works) == {};
  }

  lemma {:induction false} RunAlive(c: Config, run: seq<State>, i: nat)
    requires Sound(c) && IsRun(c, run) && i < |run|
    ensures Alive(c, run[i]) && i + StepsLeft(c, run[i]) <= 20 * |c.jobs| + 10
    decreases i
  {
    hide Alive, Can, Next, Initial, StepsLeft;
    InitialAlive(c);
    if i > 0 {
      RunAlive(c, run, i - 1);
      assert Goes(c, run[i - 1], run[i - 1 + 1]);
      var step :| Can(c, run[i - 1], step) && run[i] == Next(c, run[i - 1], step);
      StepAlive(c, run[i - 1], step);
    }
  }

  // ---- Main results ----

  /** No run is longer than a fixed number of steps for each job. */
  lemma EveryRunEnds(c: Config, run: seq<State>)
    requires Sound(c) && IsRun(c, run)
    ensures |run| <= 20 * |c.jobs| + 11
  {
    hide Alive, Initial, Goes;
    RunAlive(c, run, |run| - 1);
    StepsNotNegative(c, run[|run| - 1]);
  }

  lemma StepsNotNegative(c: Config, s: State)
    requires Alive(c, s)
    ensures StepsLeft(c, s) >= 0
  {
    hide CountsOk, Held, ListsOk, WriterOk, LimitOk, ThreadsOk, DictOf, WorkOk;
  }

  /** With four input buffers or more (the program has 2 * procs + 3), no run
      stops before the main thread is done. */
  lemma NoRunIsStuck(c: Config, run: seq<State>)
    requires Sound(c) && IsRun(c, run) && c.limit >= 4
    ensures run[|run| - 1].main.phase == Done || CanGo(c, run[|run| - 1])
  {
    hide Alive, Initial, Goes;
    RunAlive(c, run, |run| - 1);
    if run[|run| - 1].main.phase != Done {
      MainGoes(c, run[|run| - 1]);
    }
  }

  /** Some job needs four input buffers. */
  ghost predicate NeedsFour(c: Config) {
    exists k :: 0 < k < |c.jobs| && NeedsFourAt(c, k)
  }

  /** Without such a job three are enough. */
  lemma ThreeAreEnough(c: Config, run: seq<State>)
    requires Sound(c) && IsRun(c, run) && c.limit >= 3 && !NeedsFour(c)
    ensures run[|run| - 1].main.phase == Done || CanGo(c, run[|run| - 1])
  {
    hide Alive, Initial, Goes, NeedsFourAt;
    var s := run[|run| - 1];
    RunAlive(c, run, |run| - 1);
    if s.main.phase != Done {
      if s.main.phase.NeedRest? {
        NeedsAtJob(c, |s.works|);
      }
      MainGoes(c, s);
    }
  }

  lemma NeedsAtJob(c: Config, k: nat)
    ensures NeedsFourAt(c, k) ==> NeedsFour(c) && 0 < k < |c.jobs|
  {
  }

  /** A run that can go no further has written the whole stream and has
      returned every buffer to its pool, as many as were made. */
  lemma CompletedRun(c: Config, run: seq<State>)
    requires Sound(c) && IsRun(c, run) && !CanGo(c, run[|run| - 1])
    requires c.limit >= 4 || (c.limit >= 3 && !NeedsFour(c))
    ensures var s := run[|run| - 1];
            s.main.phase == Done && s.writer.output == Stream(c) &&
            (forall id :: 0 <= id < |s.spaces| ==> s.spaces[id].uses == 0) &&
            s.idle == s.threads && s.waiting == [] && s.have == 0 && s.list == [] && s.first == -1
  {
    hide Initial, Goes, Stream, CanGo, Safe, NeedsFour;
    var s := run[|run| - 1];
    if c.limit >= 4 {
      NoRunIsStuck(c, run);
    } else {
      ThreeAreEnough(c, run);
    }
    RunAlive(c, run, |run| - 1);
    EveryRunWritesTheStream(c, run, |run| - 1);
    AllDone(c, s);
  }

  lemma AllDone(c: Config, s: State)
    requires Alive(c, s) && s.main.phase == Done
    ensures forall id :: 0 <= id < |s.spaces| ==> s.spaces[id].uses == 0
    ensures s.idle == s.threads && s.waiting == [] && s.have == 0 && s.list == [] && s.first == -1
  {
    hide CountsOk, Held, TotalsOk, ListsOk, LimitOk, DictOf, Claim;
    EndedMeansWritten(c, s);
    NothingLeft(c, s);
    forall o ensures Claim(s, o) == None {
      NoClaimAtEnd(c, s, o);
    }
    forall id | 0 <= id < |s.spaces| ensures s.spaces[id].uses == 0 {
      NoUsers(s, id);
    }
    assert Busy(s.works) == {};
  }

  lemma EndedMeansWritten(c: Config, s: State)
    requires WriterOk(c, s) && s.writer.phase == Ended
    ensures s.writer.seqno == |c.jobs|
  {
    hide TotalsOk;
  }

  lemma NoClaimAtEnd(c: Config, s: State, o: Owner)
    requires Safe(c, s) && s.main.phase == Done && s.writer.seqno == |c.jobs|
    ensures Claim(s, o) == None
  {
    hide CountsOk, Held, TotalsOk, ListsOk, DictOf;
    if !(o.MainCurr? || o.MainNext? || o.MainHold? || o.MainDict? || o.MainPast?) && o.k < |s.works| {
      assert WorkOk(c, o.k, s.works[o.k]);
      assert s.works[o.k].writing == Freed;
    }
  }
}
