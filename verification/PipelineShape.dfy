/** Every step of the pipeline keeps the order of the job lists and the stages
    of the threads consistent. */
module PipelineShape {
  import opened Basics
  import opened Splitter
  import opened Pipeline
  import opened PipelineClaims
  import opened Checks

  // ---- Stages ----

  lemma ShapeGet(c: Config, s: State, id: nat)
    requires ShapeOk(c, s) && MainCan(c, s, Get(id))
    ensures ShapeOk(c, MainStep(c, s, Get(id)))
  {
    hide CanGet, DictOf, Fill, Hand, At, Plan, SplitsAt, WorkOk;
    PlanStart(c);
    NoDictAtFirst(c);
    if |s.works| < |c.jobs| {
      ReadAhead(c, |s.works|);
    }
  }

  lemma ShapeShift(c: Config, s: State)
    requires ShapeOk(c, s) && MainCan(c, s, Shift)
    ensures ShapeOk(c, DoShift(s))
  {
    hide DictOf, Plan, SplitsAt, WorkOk, ReadAt, Sound;
    ReadAhead(c, |s.works|);
  }

  lemma ShapeCut(c: Config, s: State)
    requires ShapeOk(c, s) && Sees(c, s) && MainCan(c, s, CutOff)
    ensures ShapeOk(c, DoCut(c, s))
  {
    hide DictOf, Fill, At, Plan, SplitsAt, WorkOk, ReadAt, Sound;
    JobBuffered(c, |s.works|);
  }

  lemma ShapeOffer(c: Config, s: State, id: nat)
    requires ShapeOk(c, s) && Sees(c, s) && MainCan(c, s, OfferDict(id))
    ensures ShapeOk(c, DoOffer(c, s, id))
  {
    hide CanGet, DictOf, Fill, Hand, Use, Tail, Plan, SplitsAt, WorkOk, ReadAt, Sound, Contents;
    DictGiven(c, |s.works|);
  }

  lemma ShapePut(c: Config, s: State)
    requires ShapeOk(c, s) && Sees(c, s) && MainCan(c, s, PutJob)
    ensures ShapeOk(c, DoPut(c, s))
  {
    hide DictOf, Plan, SplitsAt, ReadAt, Sound, Contents, CheckOf;
    var k := |s.works|;
    DictGiven(c, k);
    JobBuffered(c, k);
    ReadAhead(c, k);
  }

  lemma ShapeMain(c: Config, s: State, step: Step)
    requires ShapeOk(c, s) && Sees(c, s) && MainCan(c, s, step)
    ensures ShapeOk(c, MainStep(c, s, step))
  {
    hide ShapeOk, Sees, CanGet, DoRead, DoSave, DoShift, DoCut, DoOffer, DoPut;
    match step
    case Get(id) => ShapeGet(c, s, id);
    case Shift => ShapeShift(c, s);
    case CutOff => ShapeCut(c, s);
    case OfferDict(id) => ShapeOffer(c, s, id);
    case PutJob => ShapePut(c, s);
    case DropNext => ShapeLast(c, s, step);
    case Join => ShapeLast(c, s, step);
  }

  lemma ShapeLast(c: Config, s: State, step: Step)
    requires ShapeOk(c, s) && MainCan(c, s, step) && (step.DropNext? || step.Join?)
    ensures ShapeOk(c, MainStep(c, s, step))
  {
    hide DictOf, Drop, Plan, SplitsAt, WorkOk, ReadAt, Sound;
  }

  lemma PlanStart(c: Config)
    ensures Plan(c, 0) == Ahead(0, Min(c.size, |c.input|), 0)
  {
  }

  /** The sum of what is buffered after a job is what has been read for it. */
  lemma ReadAhead(c: Config, k: nat)
    requires Sound(c) && k < |c.jobs|
    ensures var a := Plan(c, k + 1); a.start + a.have + a.held == ReadAt(c, k)
    ensures var a := Plan(c, k);
            (a.held > 0 ==> ReadAt(c, k) == a.start + a.have + a.held) &&
            (a.held == 0 ==> ReadAt(c, k) == a.start + a.have + Min(c.size, Minus(|c.input|, a.start + a.have)))
  {
    JobBuffered(c, k);
  }

  /** A dictionary precedes a job exactly when the job before gives one. */
  lemma DictGiven(c: Config, k: nat)
    requires Sound(c) && k < |c.jobs|
    ensures c.jobs[k].more <==> k + 1 < |c.jobs|
    ensures GivesDict(c, k) <==> k + 1 < |c.jobs| && DictOf(c, k + 1).Dict?
  {
    assert SoundJob(c, k);
  }

  lemma NoDictAtFirst(c: Config)
    ensures DictOf(c, 0) == NoDict
  {
  }

  /** Job `k` moves to a later stage, the others stay where they are. */
  lemma ShapeAlong(c: Config, s: State, s': State, k: nat)
    requires ShapeOk(c, s) && k < |s.works| && s'.main == s.main
    requires |s'.works| == |s.works| && forall j :: 0 <= j < |s.works| && j != k ==> s'.works[j] == s.works[j]
    requires WorkOk(c, k, s.works[k]) ==> WorkOk(c, k, s'.works[k])
    ensures ShapeOk(c, s')
  {
    hide WorkOk, MainOk;
    assert MainOk(c, s') by { SameMain(c, s, s'); }
  }

  lemma SameMain(c: Config, s: State, s': State)
    requires MainOk(c, s) && s'.main == s.main && |s'.works| == |s.works|
    ensures MainOk(c, s')
  {
  }

  lemma ShapeBefore(c: Config, s: State, step: Step)
    requires ShapeOk(c, s) && ListsOk(s) && CompressCan(c, s, step)
    requires step.Take? || step.Prime? || step.Fit? || step.Deflate?
    ensures ShapeOk(c, CompressStep(c, s, step))
  {
    hide CanGet, DictOf, Fill, Hand, Use, Drop, CheckOf, At, ShapeOk;
    match step
    case Take => ShapeAlong(c, s, DoTake(s), s.waiting[0]);
    case Prime(k) => ShapeAlong(c, s, DoPrime(s, k), k);
    case Fit(k, id) => ShapeAlong(c, s, DoFit(s, k, id), k);
    case Deflate(k) => ShapeAlong(c, s, DoDeflate(c, s, k), k);
  }

  lemma ShapeAfter(c: Config, s: State, step: Step)
    requires ShapeOk(c, s) && CompressCan(c, s, step)
    requires step.Reserve? || step.InsertJob? || step.Checksum? || step.Calculate?
    ensures ShapeOk(c, CompressStep(c, s, step))
  {
    hide CanGet, DictOf, Fill, Hand, Use, Drop, CheckOf, At, ShapeOk, Insert, FirstOf;
    match step
    case Reserve(k) => ShapeAlong(c, s, DoReserve(s, k), k);
    case InsertJob(k) => ShapeAlong(c, s, DoInsert(s, k), k);
    case Checksum(k) => ShapeAlong(c, s, DoSum(c, s, k), k);
    case Calculate(k) => ShapeAlong(c, s, DoCalculate(s, k), k);
  }

  lemma ShapeCompress(c: Config, s: State, step: Step)
    requires ShapeOk(c, s) && ListsOk(s) && CompressCan(c, s, step)
    ensures ShapeOk(c, CompressStep(c, s, step))
  {
    hide ShapeOk, ListsOk, CompressStep;
    if step.Take? || step.Prime? || step.Fit? || step.Deflate? {
      ShapeBefore(c, s, step);
    } else {
      ShapeAfter(c, s, step);
    }
  }

  lemma ShapeWriter(c: Config, s: State, step: Step)
    requires ShapeOk(c, s) && ListsOk(s) && WriterCan(c, s, step)
    ensures ShapeOk(c, WriterStep(c, s, step))
  {
    hide DictOf, Drop, CheckOf, At, ShapeOk, FirstOf, Combine;
    var k := s.writer.seqno;
    match step
    case Header => SameWorks(c, s, WriterStep(c, s, Header));
    case Pop => FirstIsListed(s); ShapeAlong(c, s, DoPop(s), s.list[0]);
    case Count => ShapeAlong(c, s, DoCount(s), k);
    case Write => ShapeAlong(c, s, DoWrite(s), k);
    case AddCheck => ShapeAlong(c, s, DoAddCheck(c, s), k);
    case Trailer => SameWorks(c, s, WriterStep(c, s, Trailer));
  }

  lemma SameWorks(c: Config, s: State, s': State)
    requires ShapeOk(c, s) && s'.main == s.main && s'.works == s.works
    ensures ShapeOk(c, s')
  {
    hide WorkOk;
  }

  // ---- Lists ----

  /** Insertion keeps the list in order and adds what it should. */
  lemma {:induction false} InsertOrdered(list: seq<nat>, k: nat)
    requires Increasing(list) && k !in list
    ensures Increasing(Insert(list, k))
    ensures forall j :: j in Insert(list, k) <==> j in list || j == k
    decreases |list|
  {
    var r := Insert(list, k);
    if list != [] && list[0] <= k {
      InsertOrdered(list[1..], k);
      var tail := Insert(list[1..], k);
      assert list == [list[0]] + list[1..];
      forall i | 0 <= i < |tail| ensures list[0] < tail[i] {
        assert tail[i] in tail;
        assert tail[i] == k || exists j :: 1 <= j < |list| && list[j] == tail[i];
      }
    }
  }

  lemma RestOrdered(list: seq<nat>)
    requires Increasing(list) && list != []
    ensures Increasing(list[1..])
    ensures forall j :: j in list[1..] <==> j in list && j != list[0]
  {
    forall j | j in list && j != list[0] ensures j in list[1..] {
      var i :| 0 <= i < |list| && list[i] == j;
      assert list[1..][i - 1] == j;
    }
  }

  lemma ListsMain(c: Config, s: State, step: Step)
    requires ShapeOk(c, s) && ListsOk(s) && MainCan(c, s, step)
    ensures ListsOk(MainStep(c, s, step))
  {
    hide CanGet, DictOf, Fill, Hand, Use, Drop, CheckOf, Tail, At, Copies, ShapeOk, Increasing, FirstOf;
  }

  lemma ListsCompress(c: Config, s: State, step: Step)
    requires ShapeOk(c, s) && ListsOk(s) && CompressCan(c, s, step)
    ensures ListsOk(CompressStep(c, s, step))
  {
    hide CanGet, DictOf, Fill, Hand, Use, Drop, CheckOf, At, ShapeOk, Increasing, FirstOf, Insert;
    if step.InsertJob? {
      UnlistedBefore(c, s, step.k);
      InsertOrdered(s.list, step.k);
    }
  }

  lemma ListsWriter(c: Config, s: State, step: Step)
    requires ShapeOk(c, s) && ListsOk(s) && WriterCan(c, s, step)
    requires step.Trailer? ==> s.list == []
    ensures ListsOk(WriterStep(c, s, step))
  {
    hide DictOf, Drop, CheckOf, At, ShapeOk, Increasing, FirstOf, Combine;
    if step.Pop? {
      FirstIsListed(s);
      RestOrdered(s.list);
    }
    assert FirstOf([]) == -1 by { NoFirst(); }
  }

  lemma NoFirst()
    ensures FirstOf([]) == -1
  {
  }
}
