/** What the pipeline writes: the compressed jobs in order, each once, between
    the header and a trailer with the lengths and the check of the whole input. */
module PipelineOutput {
  import opened Basics
  import opened Pipeline
  import opened PipelineClaims
  import opened PipelineShape
  import opened PipelineData
  import opened Checks

  /** The input of the first `k` jobs. */
  function InputOf(c: Config, k: nat): seq<bv8>
    requires k <= |c.jobs|
  {
    if k == 0 then [] else InputOf(c, k - 1) + c.jobs[k - 1].data
  }

  /** What the first `k` jobs compress to. */
  function OutputOf(c: Config, k: nat): seq<bv8>
    requires k <= |c.jobs|
  {
    if k == 0 then [] else OutputOf(c, k - 1) + Produced(c, k - 1)
  }

  /** The complete stream. */
  function Stream(c: Config): seq<bv8> {
    var n := |c.jobs|;
    c.header + OutputOf(c, n) +
    c.trailer(|InputOf(c, n)| % WORD, |OutputOf(c, n)| % WORD, CheckOf(c.zlib, InputOf(c, n)), |c.header|)
  }

  // ---- The write thread ----

  /** The stages of the jobs, as seen from the job being written. */
  ghost predicate StagesOk(c: Config, s: State) {
    var w := s.writer;
    w.seqno <= |s.works| && w.seqno <= |c.jobs| &&
    (w.phase == Starting ==> w.seqno == 0) &&
    (w.phase.Starting? || w.phase.Running? <==> w.seqno < |c.jobs|) &&
    forall k :: 0 <= k < |s.works| ==>
      (s.works[k].writing == Freed <==> k < w.seqno) &&
      (2 <= Progress(s.works[k].writing) < 5 ==> k == w.seqno && w.phase == Running)
  }

  /** How far the writer is with the current job. */
  function Current(s: State): nat {
    if s.writer.seqno < |s.works| then Progress(s.works[s.writer.seqno].writing) else 0
  }

  ghost predicate TotalsOk(c: Config, s: State)
    requires s.writer.seqno <= |c.jobs|
  {
    var w, k := s.writer, s.writer.seqno;
    var counted := Current(s) >= 3 && k < |c.jobs|;
    var written := Current(s) >= 4 && k < |c.jobs|;
    match w.phase
    case Starting => w.output == [] && w.ulen == w.clen == 0
    case Ended => k == |c.jobs| && w.output == Stream(c)
    case _ =>
      w.output == c.header + (if written then OutputOf(c, k + 1) else OutputOf(c, k)) &&
      w.check == CheckOf(c.zlib, InputOf(c, k)) &&
      (counted ==> w.len == |c.jobs[k].data|) &&
      w.ulen == |if counted then InputOf(c, k + 1) else InputOf(c, k)| % WORD &&
      w.clen == |if counted then OutputOf(c, k + 1) else OutputOf(c, k)| % WORD
  }

  ghost predicate WriterOk(c: Config, s: State) {
    StagesOk(c, s) && TotalsOk(c, s)
  }

  // ---- Steps of the other threads ----

  /** The other threads do not disturb the job being written. */
  lemma WriterAside(c: Config, s: State, s': State)
    requires WriterOk(c, s) && s'.writer == s.writer
    requires |s'.works| >= |s.works|
    requires forall k :: 0 <= k < |s.works| ==>
      s'.works[k].writing == s.works[k].writing ||
      (s.works[k].writing == Unlisted && s'.works[k].writing == Listed)
    requires forall k :: |s.works| <= k < |s'.works| ==> s'.works[k].writing == Unlisted
    ensures WriterOk(c, s')
  {
    hide InputOf, OutputOf, Stream;
  }

  lemma WriterMain(c: Config, s: State, step: Step)
    requires WriterOk(c, s) && MainCan(c, s, step)
    ensures WriterOk(c, MainStep(c, s, step))
  {
    hide CanGet, DictOf, Fill, Hand, Use, Drop, CheckOf, Tail, At, Copies, WriterOk, GivesDict;
    WriterAside(c, s, MainStep(c, s, step));
  }

  lemma WriterCompress(c: Config, s: State, step: Step)
    requires ShapeOk(c, s) && WriterOk(c, s) && CompressCan(c, s, step)
    ensures WriterOk(c, CompressStep(c, s, step))
  {
    hide CanGet, DictOf, Fill, Hand, Use, Drop, CheckOf, At, WriterOk, ShapeOk, Insert, FirstOf;
    if step.InsertJob? {
      UnlistedBefore(c, s, step.k);
    }
    WriterAside(c, s, CompressStep(c, s, step));
  }

  // ---- Steps of the write thread ----

  lemma AddMod(a: nat, b: nat)
    ensures Add(a % WORD, b) == (a + b) % WORD
  {
    var q := a / WORD;
    assert a == q * WORD + a % WORD;
    ModShift(a % WORD + b, q);
  }

  lemma {:induction false} ModShift(x: nat, q: nat)
    ensures (x + q * WORD) % WORD == x % WORD
  {
    if q > 0 {
      ModShift(x, q - 1);
      assert x + q * WORD == (x + (q - 1) * WORD) + WORD;
    }
  }

  lemma OutputNext(c: Config, k: nat)
    requires k < |c.jobs|
    ensures OutputOf(c, k + 1) == OutputOf(c, k) + Produced(c, k)
    ensures InputOf(c, k + 1) == InputOf(c, k) + c.jobs[k].data
  {
  }

  lemma WriterHeader(c: Config, s: State)
    requires Sound(c) && WriterOk(c, s) && WriterCan(c, s, Header)
    ensures WriterOk(c, WriterStep(c, s, Header))
  {
    hide CheckOf, Produced;
  }

  lemma WriterPop(c: Config, s: State)
    requires WriterOk(c, s) && ListsOk(s) && WriterCan(c, s, Pop)
    ensures WriterOk(c, DoPop(s))
  {
    hide CheckOf, Produced, InputOf, OutputOf, Stream;
    FirstIsListed(s);
  }

  lemma WriterCount(c: Config, s: State)
    requires WriterOk(c, s) && Kept(c, s) && WriterCan(c, s, Count)
    ensures WriterOk(c, DoCount(s))
  {
    hide CheckOf, Produced, InputOf, OutputOf, Stream, Drop, DictOf, CountsOk, At, Add;
    var k := s.writer.seqno;
    assert WorkOk(c, k, s.works[k]);
    assert HeldBy(c, s, JobInput(k)) && HeldBy(c, s, JobOutput(k));
    OutputNext(c, k);
    AddMod(|InputOf(c, k)|, |c.jobs[k].data|);
    AddMod(|OutputOf(c, k)|, |Produced(c, k)|);
  }

  lemma WriterWrite(c: Config, s: State)
    requires WriterOk(c, s) && Kept(c, s) && WriterCan(c, s, Write)
    ensures WriterOk(c, DoWrite(s))
  {
    hide CheckOf, Produced, InputOf, OutputOf, Stream, Drop, DictOf, CountsOk, At;
    var k := s.writer.seqno;
    assert WorkOk(c, k, s.works[k]);
    assert HeldBy(c, s, JobOutput(k));
    OutputNext(c, k);
    assert c.header + OutputOf(c, k) + Produced(c, k) == c.header + (OutputOf(c, k) + Produced(c, k));
  }

  lemma WriterAddCheck(c: Config, s: State)
    requires WriterOk(c, s) && Kept(c, s) && WriterCan(c, s, AddCheck)
    ensures WriterOk(c, DoAddCheck(c, s))
  {
    hide CheckOf, Combine, Produced, InputOf, OutputOf, Stream, HeldBy, DictOf, CountsOk, MainOk;
    var k := s.writer.seqno;
    assert Known(c, k, s.works[k]) && WorkOk(c, k, s.works[k]) && SoundJob(c, k);
    OutputNext(c, k);
    CombineConcat(c.zlib, InputOf(c, k), c.jobs[k].data);
  }

  lemma WriterTrailer(c: Config, s: State)
    requires WriterOk(c, s) && WriterCan(c, s, Trailer)
    ensures WriterOk(c, WriterStep(c, s, Trailer))
  {
    hide CheckOf, InputOf, OutputOf;
  }

  lemma WriterWriter(c: Config, s: State, step: Step)
    requires WriterOk(c, s) && Kept(c, s) && ListsOk(s) && WriterCan(c, s, step)
    ensures WriterOk(c, WriterStep(c, s, step))
  {
    hide WriterOk, CountsOk, Held, ListsOk, DoPop, DoCount, DoWrite, DoAddCheck, MainOk, WorkOk;
    match step
    case Header => WriterHeader(c, s);
    case Pop => WriterPop(c, s);
    case Count => WriterCount(c, s);
    case Write => WriterWrite(c, s);
    case AddCheck => WriterAddCheck(c, s);
    case Trailer => WriterTrailer(c, s);
  }

  // ---- Every run ----

  ghost predicate Safe(c: Config, s: State) {
    Kept(c, s) && ListsOk(s) && WriterOk(c, s)
  }

  lemma InitialSafe(c: Config)
    requires Sound(c)
    ensures Safe(c, Initial(c))
  {
    hide CheckOf, Stream;
    var s := Initial(c);
    forall id: nat ensures Users(s, id) == 0 {
      assert Holders(Claims(s), id) == {};
    }
    assert forall o :: HeldBy(c, s, o);
  }

  /** At the trailer both lists are empty: the write thread's final asserts hold. */
  lemma NothingLeft(c: Config, s: State)
    requires Safe(c, s) && s.writer.seqno == |c.jobs|
    ensures s.waiting == [] && s.have == 0 && s.list == [] && s.first == -1
    ensures |s.works| == |c.jobs| && forall k :: 0 <= k < |s.works| ==> s.works[k].compressing == Calculated
  {
    hide CountsOk, Held, TotalsOk, DictOf;
    forall k | 0 <= k < |s.works| ensures s.works[k].compressing == Calculated {
      assert WorkOk(c, k, s.works[k]);
    }
    if s.waiting != [] {
      LastIsQueued(s);
    }
    if s.list != [] {
      FirstIsListed(s);
    }
  }

  lemma LastIsQueued(s: State)
    requires ListsOk(s) && s.waiting != []
    ensures |s.works| > 0 && s.works[|s.works| - 1].compressing == Queued
    ensures s.waiting[0] < |s.works| && s.works[s.waiting[0]].compressing == Queued
  {
  }

  lemma StepSafe(c: Config, s: State, step: Step)
    requires Safe(c, s) && Can(c, s, step)
    ensures Safe(c, Next(c, s, step))
  {
    hide ShapeOk, CountsOk, Held, ListsOk, WriterOk, MainStep, CompressStep, WriterStep, MainCan, CompressCan, WriterCan, Sees;
    if MainCan(c, s, step) {
      MainSees(c, s);
      ShapeMain(c, s, step);
      CountedMain(c, s, step);
      HeldMain(c, s, step);
      ListsMain(c, s, step);
      WriterMain(c, s, step);
    } else if CompressCan(c, s, step) {
      ShapeCompress(c, s, step);
      CountedCompress(c, s, step);
      HeldCompress(c, s, step);
      ListsCompress(c, s, step);
      WriterCompress(c, s, step);
    } else {
      ShapeWriter(c, s, step);
      CountedWriter(c, s, step);
      HeldWriter(c, s, step);
      if step.Trailer? {
        AtTrailer(c, s);
      }
      ListsWriter(c, s, step);
      WriterWriter(c, s, step);
    }
  }

  lemma AtTrailer(c: Config, s: State)
    requires Safe(c, s) && WriterCan(c, s, Trailer)
    ensures s.list == [] && s.waiting == [] && s.have == 0
  {
    hide CountsOk, Held, ListsOk, TotalsOk, ShapeOk;
    assert s.writer.seqno == |c.jobs|;
    NothingLeft(c, s);
  }

  lemma {:induction false} RunSafe(c: Config, run: seq<State>, i: nat)
    requires Sound(c) && IsRun(c, run) && i < |run|
    ensures Safe(c, run[i])
    decreases i
  {
    hide Safe, Can, Next, Initial;
    if i == 0 {
      InitialSafe(c);
    } else {
      RunSafe(c, run, i - 1);
      assert Goes(c, run[i - 1], run[i - 1 + 1]);
      var step :| Can(c, run[i - 1], step) && run[i] == Next(c, run[i - 1], step);
      StepSafe(c, run[i - 1], step);
    }
  }

  /** However the threads are interleaved, once the write thread is done the
      stream is complete and right. */
  lemma EveryRunWritesTheStream(c: Config, run: seq<State>, i: nat)
    requires Sound(c) && IsRun(c, run) && i < |run| && run[i].writer.phase == Ended
    ensures run[i].writer.output == Stream(c)
  {
    hide IsRun, Initial, Stream, Kept, ListsOk, StagesOk;
    RunSafe(c, run, i);
  }

  /** And all along, what has been written is the header and the first jobs. */
  lemma OutputInOrder(c: Config, run: seq<State>, i: nat)
    requires Sound(c) && IsRun(c, run) && i < |run|
    requires run[i].writer.phase == Running || run[i].writer.phase == Trailing
    ensures exists k :: run[i].writer.seqno <= k <= |c.jobs| && run[i].writer.output == c.header + OutputOf(c, k)
  {
    hide IsRun, Initial, Stream, Kept, ListsOk, OutputOf;
    RunSafe(c, run, i);
    var k := run[i].writer.seqno;
    if Current(run[i]) >= 4 && k < |c.jobs| {
      assert run[i].writer.output == c.header + OutputOf(c, k + 1);
    } else {
      assert run[i].writer.output == c.header + OutputOf(c, k);
    }
  }

  /** A buffer is in its pool exactly when nobody uses it; in particular none is
      handed out while in use, and each buffer in use still holds what its users
      put there. */
  lemma PoolSafe(c: Config, run: seq<State>, i: nat, id: nat)
    requires Sound(c) && IsRun(c, run) && i < |run| && id < |run[i].spaces|
    ensures var s := run[i];
            (s.spaces[id].uses == 0 <==> forall o :: Claim(s, o) != Some(id)) &&
            (forall o :: Claim(s, o) == Some(id) && Expect(c, s, o).Some? ==> s.spaces[id].data == Expect(c, s, o).value)
  {
    hide IsRun, Initial, ShapeOk, ListsOk, WriterOk, Claim, Expect, CountsOk, Known, IsSole;
    RunSafe(c, run, i);
    var s := run[i];
    assert At(s.spaces, id) == s.spaces[id];
    forall o | Claim(s, o) == Some(id)
      ensures s.spaces[id].uses != 0 && (Expect(c, s, o).Some? ==> s.spaces[id].data == Expect(c, s, o).value)
    {
      UsersAtLeast(s, o, id);
      assert HeldBy(c, s, o);
    }
    if forall o :: Claim(s, o) != Some(id) {
      NoUsers(s, id);
    }
  }

  lemma NoUsers(s: State, id: nat)
    requires CountsOk(s) && forall o :: Claim(s, o) != Some(id)
    ensures At(s.spaces, id).uses == 0
  {
    hide Claim;
    assert Holders(Claims(s), id) == {};
  }

  /** No copy between input buffers overruns one: in every reachable state each
      holds a buffer's size at most. */
  lemma NoOverrun(c: Config, run: seq<State>, i: nat, o: Owner)
    requires Sound(c) && IsRun(c, run) && i < |run| && Claim(run[i], o).Some?
    requires o.MainCurr? || o.MainHold? || o.JobInput? || o.JobCheck? || (o.MainNext? && !run[i].main.phase.Last?)
    ensures |At(run[i].spaces, Claim(run[i], o).value).data| <= c.size
  {
    hide IsRun, Initial, ListsOk, WriterOk, CountsOk, Known, DictOf, IsSole, Sound, Plan;
    RunSafe(c, run, i);
    var s := run[i];
    assert HeldBy(c, s, o);
    if |s.works| < |c.jobs| {
      PiecesFit(c, |s.works|);
    }
    if (o.JobInput? || o.JobCheck?) && o.k < |s.works| {
      assert WorkOk(c, o.k, s.works[o.k]);
      JobBuffered(c, o.k);
    }
  }

  lemma PiecesFit(c: Config, k: nat)
    requires Sound(c) && k < |c.jobs|
    ensures DataAt(c, k).Some? && |DataAt(c, k).value| <= c.size
    ensures AheadNext(c, k).Some? && |AheadNext(c, k).value| <= c.size
    ensures AheadHold(c, k).Some? && |AheadHold(c, k).value| <= c.size
    ensures Behind(c, k).Some? && |Behind(c, k).value| <= c.size
    ensures AheadNext(c, k + 1).Some? && |AheadNext(c, k + 1).value| <= c.size
    ensures AheadHold(c, k + 1).Some? && |AheadHold(c, k + 1).value| <= c.size
  {
    JobBuffered(c, k);
  }
}
