/** No buffer changes under a thread that relies on it: in every reachable
    state each buffer in use holds what its users expect. */
module PipelineData {
  import opened Basics
  import opened Splitter
  import opened Pipeline
  import opened PipelineClaims
  import opened Checks

  // ---- Expectations ----

  function BytesOf(d: Dict): Option<seq<bv8>> {
    match d
    case NoDict => None
    case Dict(bytes) => Some(bytes)
  }

  function DictAt(c: Config, k: nat): Option<seq<bv8>> {
    if k <= |c.jobs| then BytesOf(DictOf(c, k)) else None
  }

  function DataAt(c: Config, k: nat): Option<seq<bv8>> {
    if k < |c.jobs| then Some(c.jobs[k].data) else None
  }

  function OutputAt(c: Config, k: nat): Option<seq<bv8>> {
    if k < |c.jobs| then Some(Produced(c, k)) else None
  }

  function Piece(c: Config, from: nat, n: nat): Option<seq<bv8>> {
    if from + n <= |c.input| then Some(c.input[from..from + n]) else None
  }

  /** The input in the buffer before job `k`, in the one kept behind it, and in
      the one that is behind it when the job is cut. */
  function AheadNext(c: Config, k: nat): Option<seq<bv8>> {
    Piece(c, Plan(c, k).start, Plan(c, k).have)
  }

  function AheadHold(c: Config, k: nat): Option<seq<bv8>> {
    Piece(c, Plan(c, k).start + Plan(c, k).have, Plan(c, k).held)
  }

  function Behind(c: Config, k: nat): Option<seq<bv8>> {
    Piece(c, Plan(c, k).start + Plan(c, k).have, Following(|c.input|, c.size, Plan(c, k)))
  }

  /** What the user of a buffer takes it to hold, if it relies on its contents. */
  function Expect(c: Config, s: State, o: Owner): Option<seq<bv8>> {
    var k := |s.works|;
    match o
    case MainCurr => if s.main.phase.Offer? || s.main.phase.Put? then DataAt(c, k) else AheadNext(c, k)
    case MainNext =>
      if s.main.phase.Top? then AheadNext(c, k)
      else if s.main.phase.Cut? then Behind(c, k)
      else if s.main.phase.Offer? || s.main.phase.Put? then AheadNext(c, k + 1)
      else None
    case MainHold =>
      if s.main.phase.Top? then AheadHold(c, k)
      else if s.main.phase.NeedRest? then Behind(c, k)
      else AheadHold(c, k + 1)
    case MainDict => DictAt(c, if s.main.phase.Put? then k + 1 else k)
    case MainPast => DictAt(c, k)
    case JobInput(j) => DataAt(c, j)
    case JobCheck(j) => DataAt(c, j)
    case JobDict(j) => DictAt(c, j)
    case JobOutput(j) => if j < k && Rank(s.works[j].compressing) >= 4 then OutputAt(c, j) else None
  }

  /** The users that write to a buffer, and so must be alone with it. */
  predicate IsSole(s: State, o: Owner) {
    o.MainNext? || o.MainHold? || o.JobOutput? || (o.MainCurr? && !s.main.phase.Put?)
  }

  ghost predicate HeldBy(c: Config, s: State, o: Owner) {
    Claim(s, o).Some? ==>
      (IsSole(s, o) ==> At(s.spaces, Claim(s, o).value).uses == 1) &&
      (Expect(c, s, o).Some? ==> At(s.spaces, Claim(s, o).value).data == Expect(c, s, o).value)
  }

  /** What a compress thread has worked out for a job. */
  predicate Known(c: Config, k: nat, w: Work) {
    k < |c.jobs| &&
    (Rank(w.compressing) >= 2 ==> w.used == Used(DictOf(c, k))) &&
    (Rank(w.compressing) >= 7 ==> w.check == CheckOf(c.zlib, c.jobs[k].data))
  }

  ghost predicate Held(c: Config, s: State) {
    (forall o :: HeldBy(c, s, o)) && (forall k :: 0 <= k < |s.works| ==> Known(c, k, s.works[k]))
  }

  // ---- Effects on one buffer ----

  /** A buffer that has just been handed out, or that one user writes to,
      disturbs nobody. */
  lemma OthersAfterWrite(c: Config, s: State, s': State, o: Owner, id: nat, p: Owner)
    requires CountsOk(s') && Claim(s', o) == Some(id) && At(s'.spaces, id).uses == 1
    requires forall x: nat :: x != id ==> At(s'.spaces, x) == At(s.spaces, x)
    requires p != o && Claim(s', p) == Claim(s, p) && HeldBy(c, s, p)
    requires IsSole(s', p) ==> IsSole(s, p)
    requires Expect(c, s', p) == Expect(c, s, p)
    ensures HeldBy(c, s', p)
  {
    hide At, Claim, Expect, IsSole, CountsOk;
    if Claim(s', p) == Some(id) {
      UsersAtLeast(s', o, id);
    }
  }

  /** One user fewer disturbs nobody. */
  lemma OthersAfterDrop(c: Config, s: State, s': State, o: Owner, id: nat, p: Owner)
    requires CountsOk(s) && Claim(s, o) == Some(id)
    requires s'.spaces == Drop(s.spaces, id)
    requires p != o && Claim(s', p) == Claim(s, p) && HeldBy(c, s, p)
    requires IsSole(s', p) ==> IsSole(s, p)
    requires Expect(c, s', p) == Expect(c, s, p)
    ensures HeldBy(c, s', p)
  {
    hide Claim, Expect, IsSole, CountsOk;
    UsersAtLeast(s, o, id);
  }

  /** One more user of a buffer that is shared anyway. */
  lemma OthersAfterUse(c: Config, s: State, s': State, q: Owner, id: nat, p: Owner)
    requires CountsOk(s) && Claim(s, q) == Some(id)
    requires s'.spaces == Use(s.spaces, id)
    requires (p == q ==> !IsSole(s', q)) && Claim(s', p) == Claim(s, p) && HeldBy(c, s, p)
    requires IsSole(s', p) ==> IsSole(s, p)
    requires Expect(c, s', p) == Expect(c, s, p)
    ensures HeldBy(c, s', p)
  {
    hide Claim, Expect, IsSole, CountsOk;
    UsersAtLeast(s, q, id);
  }

  // ---- The main thread ----

  ghost predicate Kept(c: Config, s: State) {
    ShapeOk(c, s) && CountsOk(s) && Held(c, s)
  }

  /** Reading goes on where what is buffered ends. */
  lemma ReadFits(c: Config, s: State)
    requires ShapeOk(c, s) && (s.main.phase.First? || s.main.phase.NeedNext?)
    ensures var m, k := s.main, |s.works|;
            m.offset <= |c.input| &&
            Some(c.input[m.offset..m.offset + Min(c.size, Minus(|c.input|, m.offset))]) ==
              if m.phase.First? then AheadNext(c, k) else Behind(c, k)
  {
    hide WorkOk, DictOf;
    PlanRight(c, |s.works|);
  }

  lemma HeldRead(c: Config, s: State, id: nat)
    requires Kept(c, s) && MainCan(c, s, Get(id)) && !s.main.phase.NeedRest?
    ensures Held(c, DoRead(c, s, id))
  {
    hide CanGet, DictOf, WorkOk, Known, CountsOk, At, Fill, Hand, OutputAt, DataAt, Plan, Sound, SplitsAt, ReadAt, AheadNext, AheadHold, Behind;
    var s' := DoRead(c, s, id);
    NoNextYet(c, s, id);
    CountedGet(c, s, id);
    GotIsFree(s, Inputs, id);
    ReadFits(c, s);
    HandFill(s.spaces, id, Inputs, c.input[s.main.offset..s'.main.offset]);
    forall p | p != MainNext ensures HeldBy(c, s', p) {
      assert HeldBy(c, s, p);
      if Claim(s, p).Some? {
        OthersAfterWrite(c, s, s', MainNext, id, p);
      }
    }
    assert HeldBy(c, s', MainNext);
  }

  /** The rest of a buffer behind a job that splits it. */
  lemma RestIs(c: Config, k: nat, data: seq<bv8>)
    requires Sound(c) && k < |c.jobs| && SplitsAt(c, k) && Some(data) == AheadNext(c, k)
    ensures var len := |c.jobs[k].data|;
            len <= |data| && DataAt(c, k) == Some(data[..len]) && AheadNext(c, k + 1) == Some(data[len..]) &&
            AheadHold(c, k + 1) == Behind(c, k)
  {
    hide Plan, Following;
    JobBuffered(c, k);
    assert SoundJob(c, k);
    var a := Plan(c, k);
    Parted(c.input, a.start, c.ends[k + 1], a.start + a.have);
    AfterSplitting(c, k);
  }

  lemma Parted(input: seq<bv8>, start: nat, mid: nat, last: nat)
    requires start <= mid <= last <= |input|
    ensures input[start..last][..mid - start] == input[start..mid]
    ensures input[start..last][mid - start..] == input[mid..last]
  {
  }

  lemma AfterSplitting(c: Config, k: nat)
    requires Sound(c) && k < |c.jobs| && SplitsAt(c, k)
    ensures var a, b := Plan(c, k), Plan(c, k + 1);
            b.start == c.ends[k + 1] && b.start + b.have == a.start + a.have && c.ends[k + 1] <= a.start + a.have &&
            b.held == Following(|c.input|, c.size, a)
  {
    JobBuffered(c, k);
  }

  lemma HeldSave(c: Config, s: State, id: nat)
    requires Kept(c, s) && MainCan(c, s, Get(id)) && s.main.phase.NeedRest?
    ensures Held(c, DoSave(c, s, id))
  {
    hide CanGet, DictOf, WorkOk, Known, CountsOk, OutputAt, DataAt, Plan, Sound, SplitsAt, ReadAt, AheadNext, AheadHold, Behind, At, Fill, Hand;
    var s', curr := DoSave(c, s, id), s.main.curr.value;
    assert HeldBy(c, s, MainCurr) && HeldBy(c, s, MainHold);
    GotIsFree(s, Inputs, id);
    FreeIsUnclaimed(s, id);
    SoleUser(s, MainCurr, curr);
    HasAhead(c, |s.works|);
    var data, len := Contents(s, s.main.curr), |c.jobs[|s.works|].data|;
    RestIs(c, |s.works|, data);
    HandFillTwice(s.spaces, id, Inputs, data[len..], curr, data[..len]);
    forall p ensures HeldBy(c, s', p) {
      assert HeldBy(c, s, p);
    }
  }

  lemma HasAhead(c: Config, k: nat)
    requires Sound(c) && k < |c.jobs|
    ensures AheadNext(c, k).Some? && AheadHold(c, k).Some? && Behind(c, k).Some? && DataAt(c, k).Some?
    ensures |AheadNext(c, k).value| == Plan(c, k).have
    ensures Plan(c, k).held > 0 ==> AheadHold(c, k) == Behind(c, k)
  {
    JobBuffered(c, k);
  }

  lemma HandFillTwice(spaces: seq<Space>, id: nat, pool: Pool, bytes: seq<bv8>, curr: nat, rest: seq<bv8>)
    requires id <= |spaces| && curr < |spaces| && curr != id
    ensures var r := Fill(Fill(Hand(spaces, id, pool), id, bytes), curr, rest);
            At(r, id) == Space(pool, 1, bytes) && At(r, curr) == At(spaces, curr).(data := rest) &&
            forall x: nat :: x != id && x != curr ==> At(r, x) == At(spaces, x)
  {
  }

  lemma HandFill(spaces: seq<Space>, id: nat, pool: Pool, bytes: seq<bv8>)
    requires id <= |spaces|
    ensures var r := Fill(Hand(spaces, id, pool), id, bytes);
            At(r, id) == Space(pool, 1, bytes) && forall x: nat :: x != id ==> At(r, x) == At(spaces, x)
  {
  }

  lemma HeldShift(c: Config, s: State)
    requires Kept(c, s) && MainCan(c, s, Shift)
    ensures Held(c, DoShift(s))
  {
    hide DictOf, WorkOk, Known, CountsOk, At, OutputAt, DataAt, Plan, Sound, SplitsAt, ReadAt, AheadNext, AheadHold, Behind;
    var s' := DoShift(s);
    HasAhead(c, |s.works|);
    forall p ensures HeldBy(c, s', p) {
      assert HeldBy(c, s, p) && HeldBy(c, s, MainNext) && HeldBy(c, s, MainHold);
    }
  }

  lemma SoleUser(s: State, o: Owner, id: nat)
    requires CountsOk(s) && Claim(s, o) == Some(id) && At(s.spaces, id).uses == 1
    ensures id < |s.spaces| && forall p :: p != o ==> Claim(s, p) != Some(id)
  {
    hide Claim, CountsOk;
    UsersAtLeast(s, o, id);
  }

  /** A job that uses up its buffer is filled up from the next one. */
  lemma FilledIs(c: Config, k: nat, curr: seq<bv8>, next: seq<bv8>)
    requires Sound(c) && k < |c.jobs| && !SplitsAt(c, k)
    requires Some(curr) == AheadNext(c, k) && Some(next) == Behind(c, k)
    ensures var len := |c.jobs[k].data|;
            |curr| <= len <= |curr| + |next| && DataAt(c, k) == Some(curr + next[..len - |curr|]) &&
            AheadNext(c, k + 1) == Some(next[len - |curr|..])
  {
    hide Plan, Following;
    JobBuffered(c, k);
    assert SoundJob(c, k);
    var a := Plan(c, k);
    Glued(c.input, a.start, a.start + a.have, c.ends[k + 1], ReadAt(c, k));
    AfterFilling(c, k);
  }

  /** Parts of the input, put together and taken apart. */
  lemma Glued(input: seq<bv8>, start: nat, mid: nat, end: nat, last: nat)
    requires start <= mid <= end <= last <= |input|
    ensures input[start..end] == input[start..mid] + input[mid..last][..end - mid]
    ensures input[end..last] == input[mid..last][end - mid..]
  {
  }

  lemma AfterFilling(c: Config, k: nat)
    requires Sound(c) && k < |c.jobs| && !SplitsAt(c, k)
    ensures var b := Plan(c, k + 1);
            b.start == c.ends[k + 1] && b.start + b.have == ReadAt(c, k) && !(c.ends[k + 1] < Plan(c, k).start + Plan(c, k).have)
  {
    JobBuffered(c, k);
  }

  lemma HeldFill(c: Config, s: State)
    requires Kept(c, s) && MainCan(c, s, CutOff) && !SplitsAt(c, |s.works|)
    ensures Held(c, DoCut(c, s))
  {
    hide DictOf, WorkOk, Known, CountsOk, At, Set, OutputAt, DataAt, Plan, Sound, SplitsAt, ReadAt, AheadNext, AheadHold, Behind;
    var s' := DoCut(c, s);
    assert HeldBy(c, s, MainCurr) && HeldBy(c, s, MainNext);
    HasAhead(c, |s.works|);
    SoleUser(s, MainCurr, s.main.curr.value);
    SoleUser(s, MainNext, s.main.next.value);
    FilledIs(c, |s.works|, Contents(s, s.main.curr), Contents(s, s.main.next));
    forall p ensures HeldBy(c, s', p) {
      assert HeldBy(c, s, p);
    }
  }

  lemma HeldSplit(c: Config, s: State)
    requires Kept(c, s) && MainCan(c, s, CutOff) && SplitsAt(c, |s.works|)
    ensures Held(c, DoCut(c, s))
  {
    hide DictOf, WorkOk, Known, CountsOk, At, Set, OutputAt, DataAt, Plan, Sound, ReadAt, AheadNext, AheadHold, Behind, SplitsAt;
    var s' := DoCut(c, s);
    assert HeldBy(c, s, MainCurr) && HeldBy(c, s, MainNext);
    HasAhead(c, |s.works|);
    JobBuffered(c, |s.works|);
    forall p ensures HeldBy(c, s', p) {
      assert HeldBy(c, s, p);
    }
  }

  /** The main thread finds what it should where it decides by its buffers. */
  lemma MainSees(c: Config, s: State)
    requires Kept(c, s)
    ensures Sees(c, s)
  {
    hide DictOf, WorkOk, Known, CountsOk, At, OutputAt, DataAt, Plan, Sound, SplitsAt, ReadAt, AheadHold, Behind;
    assert HeldBy(c, s, MainCurr) && HeldBy(c, s, MainNext);
    if |s.works| < |c.jobs| {
      HasAhead(c, |s.works|);
      SameData(c, |s.works|);
      JobBuffered(c, |s.works|);
    }
  }

  /** The dictionary that follows: shared or copied, it is the specified one. */
  lemma DictFollows(c: Config, k: nat)
    requires k < |c.jobs| && GivesDict(c, k)
    ensures DictAt(c, k + 1) == Some(DictAfter(DictOf(c, k), c.jobs[k].data))
  {
  }

  lemma HeldOfferNone(c: Config, s: State, id: nat)
    requires Kept(c, s) && Sees(c, s) && MainCan(c, s, OfferDict(id)) && !GivesDict(c, |s.works|)
    ensures Held(c, DoOffer(c, s, id))
  {
    hide DictOf, CanGet, WorkOk, Known, CountsOk, At, OutputAt, Tail, Use, Fill, Hand;
    var s' := DoOffer(c, s, id);
    assert HeldBy(c, s, MainDict);
    forall p ensures HeldBy(c, s', p) {
      assert HeldBy(c, s, p);
    }
  }

  lemma HeldOfferShare(c: Config, s: State, id: nat)
    requires Kept(c, s) && Sees(c, s) && MainCan(c, s, OfferDict(id)) && GivesDict(c, |s.works|) && !Copies(c, s)
    ensures Held(c, DoOffer(c, s, id))
  {
    hide DictOf, CanGet, WorkOk, Known, CountsOk, OutputAt, Tail, Set, DictAt;
    var s' := DoOffer(c, s, id);
    var curr := s.main.curr.value;
    DictFollows(c, |s.works|);
    assert HeldBy(c, s, MainCurr) && HeldBy(c, s, MainDict);
    assert HeldBy(c, s', MainDict);
    UsersAtLeast(s, MainCurr, curr);
    assert HeldBy(c, s', MainPast) by { SameDict(c, |s.works|); }
    forall p | p != MainDict && p != MainPast ensures HeldBy(c, s', p) {
      assert HeldBy(c, s, p);
      OthersAfterUse(c, s, s', MainCurr, curr, p);
    }
  }

  lemma SameDict(c: Config, k: nat)
    requires k < |c.jobs|
    ensures DictAt(c, k) == BytesOf(DictOf(c, k))
  {
  }

  lemma HeldOfferCopy(c: Config, s: State, id: nat)
    requires Kept(c, s) && Sees(c, s) && MainCan(c, s, OfferDict(id)) && Copies(c, s)
    ensures Held(c, DoOffer(c, s, id))
  {
    hide DictOf, CanGet, WorkOk, Known, CountsOk, OutputAt, Tail, Fill, Hand, DictAt, At, DataAt;
    var s' := DoOffer(c, s, id);
    CountedOffer(c, s, id);
    GotIsFree(s, Dicts, id);
    FreeIsUnclaimed(s, id);
    DictFollows(c, |s.works|);
    SameDict(c, |s.works|);
    SameData(c, |s.works|);
    assert HeldBy(c, s, MainCurr) && HeldBy(c, s, MainDict);
    HandFill(s.spaces, id, Dicts, DictAfter(DictOf(c, |s.works|), c.jobs[|s.works|].data));
    assert HeldBy(c, s', MainDict);
    assert HeldBy(c, s', MainPast);
    forall p | p != MainDict && p != MainPast ensures HeldBy(c, s', p) {
      assert HeldBy(c, s, p);
      OthersAfterWrite(c, s, s', MainDict, id, p);
    }
  }

  lemma SameData(c: Config, k: nat)
    requires k < |c.jobs|
    ensures DataAt(c, k) == Some(c.jobs[k].data)
  {
  }

  lemma HeldPut(c: Config, s: State)
    requires Kept(c, s) && Sees(c, s) && MainCan(c, s, PutJob)
    ensures Held(c, DoPut(c, s))
  {
    hide DictOf, WorkOk, CountsOk, At, OutputAt, DictAt, DataAt, Plan, Sound, SplitsAt, ReadAt, AheadNext, AheadHold, Behind,
      HeldBy, Known, CheckOf;
    var s' := DoPut(c, s);
    JobBuffered(c, |s.works|);
    forall p ensures HeldBy(c, s', p) {
      PutClaims(c, s, p);
    }
    NothingKnown(c, |s.works|);
  }

  predicate OfMain(o: Owner) {
    o.MainCurr? || o.MainNext? || o.MainHold? || o.MainDict? || o.MainPast?
  }

  /** Each buffer passes from the main thread to the job with its contents. */
  lemma PutClaims(c: Config, s: State, p: Owner)
    requires Kept(c, s) && Sees(c, s) && MainCan(c, s, PutJob)
    ensures HeldBy(c, DoPut(c, s), p)
  {
    hide Kept, Sees, HeldBy, DoPut;
    if OfMain(p) {
      PutMain(c, s, p);
    } else {
      PutOther(c, s, p);
    }
  }

  lemma PutMain(c: Config, s: State, p: Owner)
    requires Kept(c, s) && Sees(c, s) && MainCan(c, s, PutJob) && OfMain(p)
    ensures HeldBy(c, DoPut(c, s), p)
  {
    hide DictOf, WorkOk, CountsOk, At, OutputAt, DictAt, DataAt, Plan, Sound, SplitsAt, ReadAt, AheadNext, AheadHold, Behind, Known, More;
    JobBuffered(c, |s.works|);
    assert HeldBy(c, s, p);
  }

  lemma PutOther(c: Config, s: State, p: Owner)
    requires Kept(c, s) && MainCan(c, s, PutJob) && !OfMain(p)
    ensures HeldBy(c, DoPut(c, s), p)
  {
    hide DictOf, WorkOk, CountsOk, At, OutputAt, DictAt, DataAt, Plan, Sound, SplitsAt, ReadAt, AheadNext, AheadHold, Behind, Known, More;
    var k := |s.works|;
    assert HeldBy(c, s, if p == JobInput(k) then MainCurr else if p == JobDict(k) then MainPast else p);
  }

  lemma NothingKnown(c: Config, k: nat)
    requires k < |c.jobs|
    ensures forall w: Work :: w.compressing == Queued ==> Known(c, k, w)
  {
  }

  lemma HeldDropNext(c: Config, s: State)
    requires Kept(c, s) && MainCan(c, s, DropNext)
    ensures Held(c, DoDropNext(s))
  {
    hide DictOf, WorkOk, Known, CountsOk, At, OutputAt, DictAt, DataAt, Drop;
    var s' := DoDropNext(s);
    forall p ensures HeldBy(c, s', p) {
      assert HeldBy(c, s, p);
      if p != MainNext {
        OthersAfterDrop(c, s, s', MainNext, s.main.next.value, p);
      }
    }
  }

  lemma HeldMain(c: Config, s: State, step: Step)
    requires Kept(c, s) && MainCan(c, s, step)
    ensures Held(c, MainStep(c, s, step))
  {
    hide ShapeOk, CountsOk, Held, DoRead, DoSave, DoShift, DoCut, DoOffer, DoPut, DoDropNext, CanGet, Copies, GivesDict, SplitsAt, Sees;
    MainSees(c, s);
    match step
    case Get(id) => if s.main.phase.NeedRest? { HeldSave(c, s, id); } else { HeldRead(c, s, id); }
    case Shift => HeldShift(c, s);
    case CutOff => if SplitsAt(c, |s.works|) { HeldSplit(c, s); } else { HeldFill(c, s); }
    case OfferDict(id) =>
      if !GivesDict(c, |s.works|) { HeldOfferNone(c, s, id); }
      else if Copies(c, s) { HeldOfferCopy(c, s, id); }
      else { HeldOfferShare(c, s, id); }
    case PutJob => HeldPut(c, s);
    case DropNext => HeldDropNext(c, s);
    case Join => HeldSame(c, s, MainStep(c, s, Join));
  }

  lemma HeldSame(c: Config, s: State, s': State)
    requires Kept(c, s) && s'.spaces == s.spaces && s'.works == s.works
    requires s'.main == s.main || (s.main.phase == Joining && s'.main == s.main.(phase := Done))
    ensures Held(c, s')
  {
    hide DictOf, MainOk, WorkOk, Known, CountsOk, At, OutputAt, DictAt, DataAt;
    forall p ensures HeldBy(c, s', p) {
      assert HeldBy(c, s, p);
    }
  }

  // ---- The other threads ----

  /** Steps that move a job along without touching a buffer. */
  lemma HeldAlong(c: Config, s: State, s': State, k: nat)
    requires Kept(c, s) && k < |s.works| && s'.spaces == s.spaces && s'.main == s.main
    requires |s'.works| == |s.works| && forall j :: 0 <= j < |s.works| && j != k ==> s'.works[j] == s.works[j]
    requires forall p :: Claim(s', p) == Claim(s, p)
    requires var r, r' := Rank(s.works[k].compressing), Rank(s'.works[k].compressing);
             (r >= 4 <==> r' >= 4) && (Known(c, k, s.works[k]) ==> Known(c, k, s'.works[k]))
    ensures Held(c, s')
  {
    hide DictOf, MainOk, WorkOk, Known, CountsOk, At, OutputAt, DictAt, DataAt, Claim;
    forall p ensures HeldBy(c, s', p) {
      assert HeldBy(c, s, p);
    }
  }

  lemma HeldPrime(c: Config, s: State, k: nat)
    requires Kept(c, s) && IsAt(s, k, Taken)
    ensures Held(c, DoPrime(s, k))
  {
    hide MainOk, CountsOk, HeldBy, DoPrime;
    forall p ensures HeldBy(c, DoPrime(s, k), p) {
      PrimeClaims(c, s, k, p);
    }
    PrimeKnown(c, s, k);
  }

  lemma PrimeClaims(c: Config, s: State, k: nat, p: Owner)
    requires Kept(c, s) && IsAt(s, k, Taken)
    ensures HeldBy(c, DoPrime(s, k), p)
  {
    hide DictOf, MainOk, WorkOk, Known, CountsOk, At, OutputAt, DataAt, DictAt, Window, Drop, Plan, AheadNext, AheadHold, Behind;
    assert HeldBy(c, s, p);
    if p != JobDict(k) && s.works[k].dict.Some? {
      OthersAfterDrop(c, s, DoPrime(s, k), JobDict(k), s.works[k].dict.value, p);
    }
  }

  /** The window of the dictionary is used. */
  lemma PrimeKnown(c: Config, s: State, k: nat)
    requires Kept(c, s) && IsAt(s, k, Taken)
    ensures |DoPrime(s, k).works| == |s.works|
    ensures forall j :: 0 <= j < |s.works| ==> Known(c, j, DoPrime(s, k).works[j])
  {
    hide DictOf, MainOk, CountsOk, At, Window, Drop;
    assert WorkOk(c, k, s.works[k]) && Known(c, k, s.works[k]);
    assert HeldBy(c, s, JobDict(k));
  }

  lemma HeldFit(c: Config, s: State, k: nat, id: nat)
    requires Kept(c, s) && CompressCan(c, s, Fit(k, id))
    ensures Held(c, DoFit(s, k, id))
  {
    hide DictOf, MainOk, CountsOk, At, OutputAt, DictAt, DataAt, CanGet, Set;
    var s' := DoFit(s, k, id);
    CountedFit(c, s, k, id);
    GotIsFree(s, Outputs, id);
    assert WorkOk(c, k, s.works[k]) && Known(c, k, s.works[k]);
    forall p ensures HeldBy(c, s', p) {
      assert HeldBy(c, s, p);
      if p != JobOutput(k) {
        OthersAfterWrite(c, s, s', JobOutput(k), id, p);
      }
    }
  }

  lemma HeldDeflate(c: Config, s: State, k: nat)
    requires Kept(c, s) && CompressCan(c, s, Deflate(k))
    ensures CountsOk(DoDeflate(c, s, k)) && Held(c, DoDeflate(c, s, k))
  {
    hide DictOf, MainOk, CountsOk, DictAt, Set;
    var s' := DoDeflate(c, s, k);
    var out := s.works[k].out.value;
    assert WorkOk(c, k, s.works[k]) && Known(c, k, s.works[k]);
    CountedAlong(s, s', k);
    assert HeldBy(c, s, JobInput(k)) && HeldBy(c, s, JobOutput(k));
    SoleUser(s, JobOutput(k), out);
    assert HeldBy(c, s', JobOutput(k));
    forall p | p != JobOutput(k) ensures HeldBy(c, s', p) {
      assert HeldBy(c, s, p);
      OthersAfterWrite(c, s, s', JobOutput(k), out, p);
    }
  }

  lemma HeldReserve(c: Config, s: State, k: nat)
    requires Kept(c, s) && IsAt(s, k, Deflated)
    ensures Held(c, DoReserve(s, k))
  {
    hide DictOf, MainOk, CountsOk, DictAt, DataAt, OutputAt, Set, At;
    var s' := DoReserve(s, k);
    var inp := s.works[k].inp;
    assert WorkOk(c, k, s.works[k]) && Known(c, k, s.works[k]);
    assert HeldBy(c, s, JobInput(k));
    UsersAtLeast(s, JobInput(k), inp);
    assert HeldBy(c, s', JobCheck(k));
    forall p | p != JobCheck(k) ensures HeldBy(c, s', p) {
      assert HeldBy(c, s, p);
      OthersAfterUse(c, s, s', JobInput(k), inp, p);
    }
  }

  lemma HeldSum(c: Config, s: State, k: nat)
    requires Kept(c, s) && IsAt(s, k, Inserted)
    ensures Held(c, DoSum(c, s, k))
  {
    hide DictOf, MainOk, CountsOk, DictAt, OutputAt, Drop, At, CheckOf;
    var s' := DoSum(c, s, k);
    assert WorkOk(c, k, s.works[k]) && Known(c, k, s.works[k]);
    assert HeldBy(c, s, JobCheck(k));
    forall p ensures HeldBy(c, s', p) {
      assert HeldBy(c, s, p);
      if p != JobCheck(k) {
        OthersAfterDrop(c, s, s', JobCheck(k), s.works[k].inp, p);
      }
    }
  }

  lemma HeldCompress(c: Config, s: State, step: Step)
    requires Kept(c, s) && ListsOk(s) && CompressCan(c, s, step)
    ensures Held(c, CompressStep(c, s, step))
  {
    hide ShapeOk, CountsOk, Held, DoPrime, DoFit, DoReserve, DoSum, DoDeflate, CanGet, Insert, FirstOf, Claim, DictOf;
    match step
    case Take => CountedAlong(s, DoTake(s), s.waiting[0]); HeldAlong(c, s, DoTake(s), s.waiting[0]);
    case Prime(k) => HeldPrime(c, s, k);
    case Fit(k, id) => HeldFit(c, s, k, id);
    case Deflate(k) => HeldDeflate(c, s, k);
    case Reserve(k) => HeldReserve(c, s, k);
    case InsertJob(k) =>
      UnlistedBefore(c, s, k);
      CountedAlong(s, DoInsert(s, k), k);
      HeldAlong(c, s, DoInsert(s, k), k);
    case Checksum(k) => HeldSum(c, s, k);
    case Calculate(k) => CountedAlong(s, DoCalculate(s, k), k); HeldAlong(c, s, DoCalculate(s, k), k);
  }

  lemma HeldCount(c: Config, s: State)
    requires Kept(c, s) && WriterCan(c, s, Count)
    ensures Held(c, DoCount(s))
  {
    hide DictOf, MainOk, WorkOk, CountsOk, DictAt, DataAt, OutputAt, Drop, At, Add;
    var s', k := DoCount(s), s.writer.seqno;
    forall p ensures HeldBy(c, s', p) {
      assert HeldBy(c, s, p);
      if p != JobInput(k) {
        OthersAfterDrop(c, s, s', JobInput(k), s.works[k].inp, p);
      }
    }
    assert Known(c, k, s.works[k]);
  }

  lemma HeldWrite(c: Config, s: State)
    requires Kept(c, s) && WriterCan(c, s, Write)
    ensures Held(c, DoWrite(s))
  {
    hide DictOf, MainOk, WorkOk, CountsOk, DictAt, DataAt, OutputAt, Drop, At;
    var s', k := DoWrite(s), s.writer.seqno;
    forall p ensures HeldBy(c, s', p) {
      assert HeldBy(c, s, p);
      if p != JobOutput(k) {
        OthersAfterDrop(c, s, s', JobOutput(k), s.works[k].out.value, p);
      }
    }
    assert Known(c, k, s.works[k]);
  }

  lemma HeldWriter(c: Config, s: State, step: Step)
    requires Kept(c, s) && ListsOk(s) && WriterCan(c, s, step)
    ensures Held(c, WriterStep(c, s, step))
  {
    hide ShapeOk, CountsOk, Held, DoCount, DoWrite, FirstOf, Claim, DictOf, CheckOf, Combine;
    match step
    case Header => HeldSame(c, s, WriterStep(c, s, Header));
    case Pop => FirstIsListed(s); CountedAlong(s, DoPop(s), s.list[0]); HeldAlong(c, s, DoPop(s), s.list[0]);
    case Count => HeldCount(c, s);
    case Write => HeldWrite(c, s);
    case AddCheck =>
      CountedAlong(s, DoAddCheck(c, s), s.writer.seqno);
      HeldAlong(c, s, DoAddCheck(c, s), s.writer.seqno);
    case Trailer => HeldSame(c, s, WriterStep(c, s, Trailer));
  }
}
