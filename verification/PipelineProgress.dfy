/** The pipeline cannot get stuck and cannot run for ever: with at least four
    input buffers, every run that goes on as long as it can comes to its end. */
module PipelineProgress {
  import opened Basics
  import opened Splitter
  import opened Pipeline
  import opened PipelineClaims
  import opened PipelineData
  import opened PipelineOutput
  import opened Checks

  // ---- Threads and buffers made ----

  ghost function InputIds(spaces: seq<Space>): set<nat> {
    set id | 0 <= id < |spaces| && spaces[id].pool == Inputs
  }

  /** The input buffers made and those that may still be made. */
  ghost predicate LimitOk(c: Config, s: State) {
    |InputIds(s.spaces)| + s.limit == c.limit
  }

  predicate IsBusy(w: Work) {
    1 <= Rank(w.compressing) <= 7
  }

  ghost function Busy(works: seq<Work>): set<nat> {
    set k | 0 <= k < |works| && IsBusy(works[k])
  }

  /** Every compress thread waits, or has a job. */
  ghost predicate ThreadsOk(c: Config, s: State) {
    s.threads == Min(|s.works|, c.procs) && s.idle + |Busy(s.works)| == s.threads &&
    (s.main.phase == Done ==> s.writer.phase == Ended)
  }

  ghost predicate SamePools(a: seq<Space>, b: seq<Space>) {
    |a| <= |b| && (forall id :: 0 <= id < |a| ==> b[id].pool == a[id].pool) &&
    (forall id :: |a| <= id < |b| ==> b[id].pool != Inputs)
  }

  lemma SameLimit(c: Config, s: State, s': State)
    requires LimitOk(c, s) && SamePools(s.spaces, s'.spaces) && s'.limit == s.limit
    ensures LimitOk(c, s')
  {
    assert InputIds(s'.spaces) == InputIds(s.spaces);
  }

  lemma LimitRead(c: Config, s: State, id: nat)
    requires LimitOk(c, s) && MainCan(c, s, Get(id))
    ensures LimitOk(c, DoRead(c, s, id))
  {
    LimitHand(c, s, id, DoRead(c, s, id));
  }

  lemma LimitSave(c: Config, s: State, id: nat)
    requires CountsOk(s) && LimitOk(c, s) && MainCan(c, s, Get(id)) && s.main.phase.NeedRest?
    ensures LimitOk(c, DoSave(c, s, id))
  {
    hide CountsOk;
    IdsExist(s, MainCurr);
    LimitHand(c, s, id, DoSave(c, s, id));
  }

  /** One input buffer is handed out. */
  lemma LimitHand(c: Config, s: State, id: nat, s': State)
    requires LimitOk(c, s) && CanGet(s, Inputs, id) && s'.limit == Limit(s, id)
    requires |s'.spaces| == if id == |s.spaces| then |s.spaces| + 1 else |s.spaces|
    requires forall x :: 0 <= x < |s.spaces| ==> s'.spaces[x].pool == s.spaces[x].pool
    requires id == |s.spaces| ==> s'.spaces[id].pool == Inputs
    ensures LimitOk(c, s')
  {
    if id == |s.spaces| {
      assert InputIds(s'.spaces) == InputIds(s.spaces) + {id};
    } else {
      assert InputIds(s'.spaces) == InputIds(s.spaces);
    }
  }

  lemma PoolsKept(a: seq<Space>, id: nat, bytes: seq<bv8>)
    requires id < |a|
    ensures SamePools(a, Fill(a, id, bytes)) && |Fill(a, id, bytes)| == |a|
    ensures SamePools(a, Use(a, id)) && SamePools(a, Drop(a, id))
  {
  }

  lemma PoolsTwice(a: seq<Space>, b: seq<Space>, d: seq<Space>)
    requires SamePools(a, b) && SamePools(b, d)
    ensures SamePools(a, d)
  {
  }

  lemma PoolsHand(s: State, pool: Pool, id: nat)
    requires CanGet(s, pool, id) && pool != Inputs
    ensures SamePools(s.spaces, Hand(s.spaces, id, pool)) && id < |Hand(s.spaces, id, pool)|
  {
  }

  lemma LimitCut(c: Config, s: State)
    requires CountsOk(s) && LimitOk(c, s) && MainCan(c, s, CutOff)
    ensures LimitOk(c, DoCut(c, s))
  {
    hide LimitOk, CountsOk, Fill, SamePools, Contents;
    IdsExist(s, MainCurr);
    IdsExist(s, MainNext);
    var curr, next, len := Contents(s, s.main.curr), Contents(s, s.main.next), |c.jobs[|s.works|].data|;
    PoolsReflexive(s.spaces);
    if len >= |curr| {
      var n := Min(len - |curr|, |next|);
      var cut := Fill(s.spaces, s.main.curr.value, curr + next[..n]);
      PoolsKept(s.spaces, s.main.curr.value, curr + next[..n]);
      PoolsKept(cut, s.main.next.value, next[n..]);
      PoolsTwice(s.spaces, cut, Fill(cut, s.main.next.value, next[n..]));
    }
    SameLimit(c, s, DoCut(c, s));
  }

  lemma LimitOffer(c: Config, s: State, id: nat)
    requires CountsOk(s) && LimitOk(c, s) && MainCan(c, s, OfferDict(id))
    ensures LimitOk(c, DoOffer(c, s, id))
  {
    hide LimitOk, CountsOk, Fill, Hand, Use, CanGet, Tail, SamePools;
    var s' := DoOffer(c, s, id);
    IdsExist(s, MainCurr);
    PoolsKept(s.spaces, s.main.curr.value, []);
    PoolsReflexive(s.spaces);
    if Copies(c, s) {
      var handed := Hand(s.spaces, id, Dicts);
      PoolsHand(s, Dicts, id);
      var data := Contents(s, s.main.curr);
      var built := Tail(Contents(s, s.main.dict), DICT - |data|) + data;
      PoolsKept(handed, id, built);
      PoolsTwice(s.spaces, handed, Fill(handed, id, built));
    }
    SameLimit(c, s, s');
  }

  lemma PoolsReflexive(a: seq<Space>)
    ensures SamePools(a, a)
  {
  }

  lemma LimitMain(c: Config, s: State, step: Step)
    requires CountsOk(s) && LimitOk(c, s) && MainCan(c, s, step)
    ensures LimitOk(c, MainStep(c, s, step))
  {
    hide LimitOk, CanGet, Tail, CountsOk, Drop, SamePools, DoCut, DoOffer, DoRead, DoSave, Contents;
    PoolsReflexive(s.spaces);
    match step
    case Get(id) => if s.main.phase.NeedRest? { LimitSave(c, s, id); } else { LimitRead(c, s, id); }
    case Shift => SameLimit(c, s, DoShift(s));
    case CutOff => LimitCut(c, s);
    case OfferDict(id) => LimitOffer(c, s, id);
    case PutJob => SameLimit(c, s, DoPut(c, s));
    case DropNext =>
      IdsExist(s, MainNext);
      PoolsKept(s.spaces, s.main.next.value, []);
      SameLimit(c, s, DoDropNext(s));
    case Join => SameLimit(c, s, MainStep(c, s, Join));
  }

  lemma LimitCompress(c: Config, s: State, step: Step)
    requires ShapeOk(c, s) && CountsOk(s) && LimitOk(c, s) && CompressCan(c, s, step)
    ensures LimitOk(c, CompressStep(c, s, step))
  {
    hide LimitOk, ShapeOk, CanGet, CountsOk, Drop, Use, Fill, Hand, SamePools, Insert, FirstOf;
    PoolsReflexive(s.spaces);
    match step
    case Fit(k, id) => PoolsHand(s, Outputs, id); SameLimit(c, s, DoFit(s, k, id));
    case Prime(k) =>
      IdsExist(s, JobDict(k));
      if s.works[k].dict.Some? { PoolsKept(s.spaces, s.works[k].dict.value, []); }
      SameLimit(c, s, DoPrime(s, k));
    case Deflate(k) =>
      StageClaims(c, s, k);
      IdsExist(s, JobOutput(k));
      var w := s.works[k];
      PoolsKept(s.spaces, w.out.value, c.deflate(w.used, At(s.spaces, w.inp).data, c.jobs[k].lens, w.more));
      SameLimit(c, s, DoDeflate(c, s, k));
    case Reserve(k) =>
      StageClaims(c, s, k);
      IdsExist(s, JobInput(k));
      PoolsKept(s.spaces, s.works[k].inp, []);
      SameLimit(c, s, DoReserve(s, k));
    case Checksum(k) =>
      IdsExist(s, JobCheck(k));
      PoolsKept(s.spaces, s.works[k].inp, []);
      SameLimit(c, s, DoSum(c, s, k));
    case Take => SameLimit(c, s, DoTake(s));
    case InsertJob(k) => SameLimit(c, s, DoInsert(s, k));
    case Calculate(k) => SameLimit(c, s, DoCalculate(s, k));
  }

  /** Before it is listed, a job has its input, and its output buffer if it has got one. */
  lemma StageClaims(c: Config, s: State, k: nat)
    requires ShapeOk(c, s) && k < |s.works| && Rank(s.works[k].compressing) < 6
    ensures Claim(s, JobInput(k)) == Some(s.works[k].inp) && Claim(s, JobOutput(k)) == s.works[k].out
    ensures s.works[k].out.Some? <==> Rank(s.works[k].compressing) >= 3
  {
    assert WorkOk(c, k, s.works[k]);
  }

  lemma LimitWriter(c: Config, s: State, step: Step)
    requires CountsOk(s) && LimitOk(c, s) && WriterCan(c, s, step)
    ensures LimitOk(c, WriterStep(c, s, step))
  {
    hide LimitOk, CountsOk, Drop, SamePools, FirstOf, Combine, CheckOf, Add;
    PoolsReflexive(s.spaces);
    match step
    case Count =>
      IdsExist(s, JobInput(s.writer.seqno));
      PoolsKept(s.spaces, s.works[s.writer.seqno].inp, []);
      SameLimit(c, s, DoCount(s));
    case Write =>
      IdsExist(s, JobOutput(s.writer.seqno));
      PoolsKept(s.spaces, s.works[s.writer.seqno].out.value, []);
      SameLimit(c, s, DoWrite(s));
    case Header => SameLimit(c, s, WriterStep(c, s, Header));
    case Pop => SameLimit(c, s, DoPop(s));
    case AddCheck => SameLimit(c, s, DoAddCheck(c, s));
    case Trailer => SameLimit(c, s, WriterStep(c, s, Trailer));
  }

  lemma IdsExist(s: State, o: Owner)
    requires CountsOk(s)
    ensures Claim(s, o).Some? ==> Claim(s, o).value < |s.spaces|
  {
    hide Claim, CountsOk;
    if Claim(s, o).Some? {
      UsersAtLeast(s, o, Claim(s, o).value);
    }
  }

  // ---- Threads ----

  /** The set of busy jobs when only job `k` moves on. */
  lemma BusyAlong(works: seq<Work>, works': seq<Work>, k: nat)
    requires k < |works| && |works'| == |works|
    requires forall j :: 0 <= j < |works| && j != k ==> works'[j] == works[j]
    ensures |Busy(works')| == |Busy(works)| - If(IsBusy(works[k])) + If(IsBusy(works'[k]))
  {
    hide IsBusy;
    var a, b := Busy(works), Busy(works');
    assert a - {k} == b - {k};
    assert |a - {k}| == |a| - If(k in a);
    assert |b - {k}| == |b| - If(k in b);
  }

  lemma BusyPut(works: seq<Work>, w: Work)
    requires w.compressing == Queued
    ensures Busy(works + [w]) == Busy(works)
  {
  }

  lemma ThreadsMain(c: Config, s: State, step: Step)
    requires ThreadsOk(c, s) && MainCan(c, s, step)
    ensures ThreadsOk(c, MainStep(c, s, step))
  {
    hide CanGet, Tail, Drop, Use, Fill, Hand, Busy, CheckOf, Copies, Contents;
    if step.PutJob? {
      var w := Work(s.main.curr.value, More(s), s.main.past, NoDict, None, CheckOf(c.zlib, []), Queued, Unlisted);
      BusyPut(s.works, w);
    }
  }

  lemma ThreadsCompress(c: Config, s: State, step: Step)
    requires ShapeOk(c, s) && ListsOk(s) && ThreadsOk(c, s) && CompressCan(c, s, step)
    ensures ThreadsOk(c, CompressStep(c, s, step))
  {
    hide ShapeOk, CanGet, Drop, Use, Fill, Hand, Busy, CheckOf, Insert, FirstOf, At;
    var k := if step.Take? then s.waiting[0] else step.k;
    BusyAlong(s.works, CompressStep(c, s, step).works, k);
  }

  lemma ThreadsWriter(c: Config, s: State, step: Step)
    requires ListsOk(s) && ThreadsOk(c, s) && WriterCan(c, s, step)
    ensures ThreadsOk(c, WriterStep(c, s, step))
  {
    hide Drop, Busy, CheckOf, FirstOf, Combine, Add, At;
    if step.Pop? {
      FirstIsListed(s);
      BusyAlong(s.works, DoPop(s).works, s.list[0]);
    } else if step.Count? || step.Write? || step.AddCheck? {
      BusyAlong(s.works, WriterStep(c, s, step).works, s.writer.seqno);
    }
  }

  // ---- Pools ----

  /** Where the dictionary of job `k` comes from: it is the buffer of the job
      before, or one of its own. */
  function DictPool(c: Config, k: nat): Pool
    requires 0 < k <= |c.jobs|
  {
    if k == 1 || |c.jobs[k - 1].data| >= DICT then Inputs else Dicts
  }

  predicate FromPool(s: State, slot: Option<nat>, pool: Pool) {
    slot.Some? ==> At(s.spaces, slot.value).pool == pool
  }

  /** The main thread's buffers come from the pools that they should. */
  ghost predicate PoolsOk(c: Config, s: State) {
    var m, k := s.main, if s.main.phase.Put? then |s.works| + 1 else |s.works|;
    FromPool(s, m.curr, Inputs) && FromPool(s, m.next, Inputs) && FromPool(s, m.hold, Inputs) &&
    (m.dict.Some? ==> 0 < k <= |c.jobs| && FromPool(s, m.dict, DictPool(c, k)))
  }

  /** No buffer ever changes its pool. */
  ghost predicate PoolsStay(a: seq<Space>, b: seq<Space>) {
    |a| <= |b| && forall id :: 0 <= id < |a| ==> b[id].pool == a[id].pool
  }

  lemma HandStays(s: State, pool: Pool, id: nat)
    requires CanGet(s, pool, id)
    ensures PoolsStay(s.spaces, Hand(s.spaces, id, pool))
  {
  }

  lemma MainStays(c: Config, s: State, step: Step)
    requires CountsOk(s) && MainCan(c, s, step)
    ensures PoolsStay(s.spaces, MainStep(c, s, step).spaces)
  {
    hide CountsOk, CanGet, Tail, Contents;
    IdsExist(s, MainCurr);
    match step
    case Get(id) => HandStays(s, Inputs, id);
    case OfferDict(id) => if Copies(c, s) { HandStays(s, Dicts, id); }
    case _ =>
  }

  lemma CompressStays(c: Config, s: State, step: Step)
    requires CompressCan(c, s, step)
    ensures PoolsStay(s.spaces, CompressStep(c, s, step).spaces) && CompressStep(c, s, step).main == s.main
  {
    hide CanGet, CheckOf, Insert, FirstOf;
    if step.Fit? {
      HandStays(s, Outputs, step.id);
    }
  }

  lemma WriterStays(c: Config, s: State, step: Step)
    requires WriterCan(c, s, step)
    ensures PoolsStay(s.spaces, WriterStep(c, s, step).spaces) && WriterStep(c, s, step).main == s.main
  {
    hide CheckOf, FirstOf, Combine, Add;
  }

  /** Steps of the other threads. */
  lemma PoolsAside(c: Config, s: State, s': State)
    requires CountsOk(s) && PoolsOk(c, s) && s'.main == s.main && PoolsStay(s.spaces, s'.spaces)
    requires |s'.works| == |s.works|
    ensures PoolsOk(c, s')
  {
    hide CountsOk;
    IdsExist(s, MainCurr);
    IdsExist(s, MainNext);
    IdsExist(s, MainHold);
    IdsExist(s, MainDict);
  }

  lemma PoolsGet(c: Config, s: State, id: nat)
    requires ShapeOk(c, s) && CountsOk(s) && PoolsOk(c, s) && MainCan(c, s, Get(id))
    ensures PoolsOk(c, MainStep(c, s, Get(id)))
  {
    hide ShapeOk, CountsOk, CanGet, Contents, Following, DictPool;
    MainStays(c, s, Get(id));
    GotIsFree(s, Inputs, id);
    FreeIsUnclaimed(s, id);
    NoNextYet(c, s, id);
    IdsExist(s, MainCurr);
    IdsExist(s, MainHold);
    IdsExist(s, MainDict);
  }

  lemma PoolsOffer(c: Config, s: State, id: nat)
    requires ShapeOk(c, s) && Sees(c, s) && CountsOk(s) && PoolsOk(c, s) && MainCan(c, s, OfferDict(id))
    ensures PoolsOk(c, DoOffer(c, s, id))
  {
    hide CountsOk, CanGet, Tail, Plan, SplitsAt, ReadAt, WorkOk, Sound;
    MainStays(c, s, OfferDict(id));
    IdsExist(s, MainCurr);
    IdsExist(s, MainNext);
    IdsExist(s, MainHold);
    if Copies(c, s) {
      GotIsFree(s, Dicts, id);
      FreeIsUnclaimed(s, id);
    }
  }

  lemma PoolsMain(c: Config, s: State, step: Step)
    requires ShapeOk(c, s) && Sees(c, s) && CountsOk(s) && PoolsOk(c, s) && MainCan(c, s, step)
    ensures PoolsOk(c, MainStep(c, s, step))
  {
    hide CountsOk, CanGet, Tail, Plan, SplitsAt, ReadAt, WorkOk, Sound, DictPool, DoOffer, DoRead, DoSave, Contents;
    match step
    case Get(id) => PoolsGet(c, s, id);
    case OfferDict(id) => PoolsOffer(c, s, id);
    case Shift =>
    case CutOff => PoolsMove(c, s, step);
    case PutJob =>
    case DropNext => PoolsMove(c, s, step);
    case Join =>
  }

  lemma PoolsMove(c: Config, s: State, step: Step)
    requires CountsOk(s) && PoolsOk(c, s) && MainCan(c, s, step) && (step.CutOff? || step.DropNext?)
    ensures PoolsOk(c, MainStep(c, s, step))
  {
    hide CountsOk, DictPool, Contents;
    MainStays(c, s, step);
    IdsExist(s, MainCurr);
    IdsExist(s, MainNext);
    IdsExist(s, MainHold);
    IdsExist(s, MainDict);
  }

  // ---- Some thread can go on ----

  ghost predicate Alive(c: Config, s: State) {
    Safe(c, s) && LimitOk(c, s) && ThreadsOk(c, s) && PoolsOk(c, s)
  }

  ghost predicate CanGo(c: Config, s: State) {
    exists step :: Can(c, s, step)
  }

  /** A pool without limit always has a buffer; the other while any may be made. */
  lemma SomeBuffer(s: State, pool: Pool) returns (id: nat)
    requires pool != Inputs || s.limit > 0 || exists x :: IsFree(s.spaces, pool, x)
    ensures CanGet(s, pool, id)
  {
    if x: nat :| IsFree(s.spaces, pool, x) {
      id := x;
    } else {
      id := |s.spaces|;
    }
  }

  /** A compress thread that has a job is never held up. */
  lemma BusyGoes(c: Config, s: State, k: nat)
    requires ShapeOk(c, s) && k < |s.works| && IsBusy(s.works[k])
    ensures CanGo(c, s)
  {
    hide CanGet, MainOk;
    assert WorkOk(c, k, s.works[k]);
    match s.works[k].compressing
    case Taken => assert Can(c, s, Prime(k));
    case Primed =>
      var id := SomeBuffer(s, Outputs);
      assert Can(c, s, Fit(k, id));
    case Fitted => assert Can(c, s, Deflate(k));
    case Deflated => assert Can(c, s, Reserve(k));
    case Reserved => assert Can(c, s, InsertJob(k));
    case Inserted => assert Can(c, s, Checksum(k));
    case Summed => assert Can(c, s, Calculate(k));
  }

  /** A queued job is taken by an idle thread, or all threads are busy. */
  lemma QueuedGoes(c: Config, s: State, k: nat)
    requires Alive(c, s) && k < |s.works| && s.works[k].compressing == Queued
    ensures CanGo(c, s)
  {
    hide ShapeOk, CountsOk, Held, WriterOk, LimitOk;
    assert s.waiting != [];
    if s.idle > 0 {
      assert s.waiting[0] < |s.works|;
      assert Can(c, s, Take);
    } else {
      assert s.threads > 0 by { SomeThread(c, s); }
      assert Busy(s.works) != {};
      var j :| j in Busy(s.works);
      BusyGoes(c, s, j);
    }
  }

  lemma SomeThread(c: Config, s: State)
    requires ShapeOk(c, s) && ThreadsOk(c, s) && |s.works| > 0
    ensures s.threads > 0
  {
  }

  lemma FirstInList(c: Config, s: State)
    requires ListsOk(s) && StagesOk(c, s) && s.writer.seqno < |s.works|
    requires s.works[s.writer.seqno].writing == Listed
    ensures s.list != [] && s.list[0] == s.writer.seqno && s.first == s.writer.seqno
  {
    var k := s.writer.seqno;
    assert k in s.list;
    var i :| 0 <= i < |s.list| && s.list[i] == k;
    FirstIsListed(s);
    assert s.list[0] <= s.list[i];
  }

  /** The job the writer is at, or waits for, can go on. */
  lemma UnfinishedGoes(c: Config, s: State)
    requires Alive(c, s) && s.writer.seqno < |s.works|
    ensures CanGo(c, s)
  {
    hide CountsOk, Held, LimitOk, TotalsOk, MainOk, DictOf, ThreadsOk, ListsOk;
    var k := s.writer.seqno;
    var w := s.works[k];
    assert WorkOk(c, k, w);
    if s.writer.phase == Starting {
      assert Can(c, s, Header);
    } else if IsBusy(w) {
      BusyGoes(c, s, k);
    } else if w.compressing == Queued {
      QueuedGoes(c, s, k);
    } else {
      match w.writing
      case Listed =>
        FirstInList(c, s);
        assert Can(c, s, Pop);
      case Popped => assert Can(c, s, Count);
      case Counted => assert Can(c, s, Write);
      case Written => assert Can(c, s, AddCheck);
    }
  }

  /** A set of buffers that is larger than what is held has another one. */
  lemma AnotherOne(a: set<nat>, x: Option<nat>, y: Option<nat>, z: Option<nat>) returns (id: nat)
    requires |a| >= 3 && (|a| >= 4 || z == None || z.value !in a)
    ensures id in a && x != Some(id) && y != Some(id) && z != Some(id)
  {
    var d := Removed(Removed(a, x), y);
    if z.Some? && z.value in a {
      d := Removed(d, z);
    }
    id :| id in d;
  }

  function Removed(a: set<nat>, x: Option<nat>): (b: set<nat>)
    ensures |b| >= |a| - 1
    ensures forall id :: id in b <==> id in a && x != Some(id)
  {
    if x.Some? then a - {x.value} else a
  }

  /** At job `k` the main thread needs four input buffers: the job splits its
      buffer, so that three are needed for the input, while the dictionary is
      in the buffer of the job before. */
  predicate NeedsFourAt(c: Config, k: nat) {
    c.setdict && 0 < k < |c.jobs| && SplitsAt(c, k) && DictPool(c, k) == Inputs
  }

  /** The main thread waits for an input buffer only while a job is under way:
      it holds two at most, or three where it needs four. */
  lemma GetGoes(c: Config, s: State)
    requires Alive(c, s) && c.limit >= 3
    requires c.limit >= 4 || !(s.main.phase.NeedRest? && NeedsFourAt(c, |s.works|))
    requires s.main.phase.First? || s.main.phase.NeedNext? || s.main.phase.NeedRest?
    ensures CanGo(c, s)
  {
    hide Held, WriterOk, ThreadsOk, ListsOk, CanGet, WorkOk, DictOf, CountsOk, Plan, SplitsAt, ReadAt, Sound;
    if s.limit > 0 || exists x :: IsFree(s.spaces, Inputs, x) {
      var id := SomeBuffer(s, Inputs);
      assert Can(c, s, Get(id));
    } else {
      var m, ids := s.main, InputIds(s.spaces);
      DictHeld(c, s);
      IdsExist(s, MainDict);
      var id: nat;
      if m.phase.NeedRest? {
        id := AnotherOne(ids, m.curr, m.hold, m.dict);
      } else {
        id := AnotherOne(ids, m.curr, m.dict, None);
      }
      assert !IsFree(s.spaces, Inputs, id);
      var o := SomeUser(s, id);
      UserIsUnfinished(c, s, o, id);
      UnfinishedGoes(c, s);
    }
  }

  /** The main thread has a dictionary exactly for the jobs after the first. */
  lemma DictHeld(c: Config, s: State)
    requires ShapeOk(c, s) && (s.main.phase.First? || s.main.phase.NeedNext? || s.main.phase.NeedRest?)
    ensures s.main.dict.Some? <==> c.setdict && 0 < |s.works|
    ensures |s.works| < |c.jobs| && (s.main.phase.NeedRest? ==> SplitsAt(c, |s.works|)) && s.main.past == None
    ensures !s.main.phase.NeedRest? ==> s.main.hold == None
    ensures s.main.next == None
  {
    hide WorkOk, Plan, SplitsAt, ReadAt;
  }

  lemma SomeUser(s: State, id: nat) returns (o: Owner)
    requires CountsOk(s) && At(s.spaces, id).uses != 0
    ensures Claim(s, o) == Some(id)
  {
    hide Claim;
    var h := Holders(Claims(s), id);
    assert |h| != 0;
    o :| o in h;
  }

  lemma UserIsUnfinished(c: Config, s: State, o: Owner, id: nat)
    requires Safe(c, s) && Claim(s, o) == Some(id) && !(o.MainCurr? || o.MainNext? || o.MainHold? || o.MainDict? || o.MainPast?)
    ensures s.writer.seqno < |s.works|
  {
    hide CountsOk, Held, TotalsOk, ListsOk, MainOk, DictOf;
    assert o.k < |s.works| && WorkOk(c, o.k, s.works[o.k]);
    assert s.works[o.k].writing != Freed;
  }

  lemma MainGoes(c: Config, s: State)
    requires Alive(c, s) && c.limit >= 3 && s.main.phase != Done
    requires c.limit >= 4 || !(s.main.phase.NeedRest? && NeedsFourAt(c, |s.works|))
    ensures CanGo(c, s)
  {
    hide NeedsFourAt, PoolsOk, Plan, SplitsAt, ReadAt, Sound, Held, TotalsOk, ThreadsOk, ListsOk, CanGet, WorkOk, DictOf, CountsOk, LimitOk, Copies;
    match s.main.phase
    case First => GetGoes(c, s);
    case NeedNext => GetGoes(c, s);
    case NeedRest => GetGoes(c, s);
    case Top => assert Can(c, s, Shift);
    case Cut => assert Can(c, s, CutOff);
    case Offer =>
      var id := SomeBuffer(s, Dicts);
      assert Can(c, s, OfferDict(id));
    case Put => assert Can(c, s, PutJob);
    case Last => assert Can(c, s, DropNext);
    case Joining =>
      if s.writer.phase == Ended {
        assert Can(c, s, Join);
      } else if s.writer.phase == Trailing {
        assert Can(c, s, Trailer);
      } else {
        UnfinishedGoes(c, s);
      }
  }
}
