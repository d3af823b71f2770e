/** Who uses which buffer: in every reachable state of the pipeline a buffer's
    use count is the number of its users. */
module PipelineClaims {
  import opened Basics
  import opened Splitter
  import opened Pipeline
  import opened Checks

  // ---- Stages ----

  function Rank(x: Compressing): nat {
    match x
    case Queued => 0
    case Taken => 1
    case Primed => 2
    case Fitted => 3
    case Deflated => 4
    case Reserved => 5
    case Inserted => 6
    case Summed => 7
    case Calculated => 8
  }

  function Progress(x: Writing): nat {
    match x
    case Unlisted => 0
    case Listed => 1
    case Popped => 2
    case Counted => 3
    case Written => 4
    case Freed => 5
  }

  predicate WorkOk(c: Config, k: nat, w: Work) {
    k < |c.jobs| &&
    (w.writing == Unlisted <==> Rank(w.compressing) < 6) &&
    (w.out.Some? <==> Rank(w.compressing) >= 3) &&
    (w.writing == Freed ==> w.compressing == Calculated) &&
    (w.dict.Some? <==> DictOf(c, k).Dict?) && w.more == c.jobs[k].more
  }

  /** A dictionary follows job `k`. */
  predicate GivesDict(c: Config, k: nat) {
    k < |c.jobs| && c.jobs[k].more && c.setdict
  }

  // ---- What is buffered ----

  /** The bytes read when job `k` is cut. */
  function ReadAt(c: Config, k: nat): nat {
    var a := Plan(c, k);
    a.start + a.have + Following(|c.input|, c.size, a)
  }

  /** The buffers before job `k` hold input from its start on: not more than they
      can, and something unless there is no input at all; a buffer is kept behind
      only if it is full or ends the input. */
  ghost predicate PlanOk(c: Config, k: nat) {
    var a, n := Plan(c, k), |c.input|;
    k < |c.ends| && a.start == c.ends[k] && a.start + a.have + a.held <= n && a.have <= c.size && a.held <= c.size &&
    (a.held > 0 ==> a.held == c.size || a.start + a.have + a.held == n) &&
    (c.ends[k] < n ==> a.have > 0)
  }

  lemma {:induction false} PlanRight(c: Config, k: nat)
    requires Sound(c) && k <= |c.jobs|
    ensures PlanOk(c, k)
    decreases k
  {
    hide Sound, SoundJob, PlanOk;
    if k == 0 {
      PlanStarts(c);
    } else {
      PlanRight(c, k - 1);
      PlanStep(c, k - 1);
    }
  }

  lemma PlanStarts(c: Config)
    requires Sound(c)
    ensures PlanOk(c, 0)
  {
  }

  lemma PlanStep(c: Config, k: nat)
    requires Sound(c) && k < |c.jobs| && PlanOk(c, k)
    ensures PlanOk(c, k + 1)
  {
    assert SoundJob(c, k);
  }

  /** Job `k` and what is buffered: the job lies within both buffers; it splits
      its buffer only if another job follows; and the next buffer is empty
      afterwards only if none does. */
  lemma JobBuffered(c: Config, k: nat)
    requires Sound(c) && k < |c.jobs|
    ensures PlanOk(c, k) && PlanOk(c, k + 1) && c.ends[k + 1] <= ReadAt(c, k) <= |c.input|
    ensures |c.jobs[k].data| == c.ends[k + 1] - c.ends[k] <= c.size
    ensures SplitsAt(c, k) <==> |c.jobs[k].data| < Plan(c, k).have
    ensures SplitsAt(c, k) ==> c.jobs[k].more && Plan(c, k + 1).held > 0
    ensures !SplitsAt(c, k) ==> Plan(c, k + 1).held == 0
    ensures Plan(c, k + 1).have > 0 <==> c.jobs[k].more
  {
    PlanRight(c, k);
    PlanRight(c, k + 1);
    assert SoundJob(c, k);
    if k + 1 < |c.jobs| {
      assert SoundJob(c, k + 1);
    }
  }

  // ---- The main thread ----

  /** Which buffers the main thread has at each point of its loop, and what it
      has read. */
  predicate MainOk(c: Config, s: State) {
    var m, k, n := s.main, |s.works|, |c.jobs|;
    var a := Plan(c, k);
    k <= n &&
    (match m.phase
      case First => k == 0 && m.curr == m.next == m.hold == None && m.offset == 0
      case Top => k < n && m.curr == None && m.next.Some? && (m.hold.Some? <==> a.held > 0) && m.offset == a.start + a.have + a.held
      case NeedNext => k < n && m.curr.Some? && m.next == m.hold == None && a.held == 0 && m.offset == a.start + a.have
      case Cut => k < n && m.curr.Some? && m.next.Some? && m.hold == None && m.offset == ReadAt(c, k)
      case NeedRest => k < n && m.curr.Some? && m.next == None && m.hold.Some? && SplitsAt(c, k) && m.offset == ReadAt(c, k)
      case Offer => k < n && m.curr.Some? && m.next.Some? && (m.hold.Some? <==> SplitsAt(c, k)) && m.offset == ReadAt(c, k)
      case Put => k < n && m.curr.Some? && m.next.Some? && (m.hold.Some? <==> SplitsAt(c, k)) && m.offset == ReadAt(c, k)
      case Last => k == n && m.curr == m.hold == None && m.next.Some?
      case Joining => k == n && m.curr == m.next == m.hold == None
      case Done => k == n && m.curr == m.next == m.hold == None) &&
    (if m.phase == Put then
      (m.past.Some? <==> DictOf(c, k).Dict?) && (m.dict.Some? <==> GivesDict(c, k))
     else m.past == None && (m.dict.Some? <==> k < n && DictOf(c, k).Dict?))
  }

  /** What the main thread finds in its buffers where it decides by them. */
  predicate Sees(c: Config, s: State) {
    var m, k := s.main, |s.works|;
    (m.phase == Cut && k < |c.jobs| ==> |Contents(s, m.curr)| == Plan(c, k).have) &&
    (m.phase == Offer && k < |c.jobs| ==> |Contents(s, m.curr)| == |c.jobs[k].data|) &&
    (m.phase == Offer || m.phase == Put ==> (More(s) <==> k < |c.jobs| && c.jobs[k].more))
  }

  ghost predicate ShapeOk(c: Config, s: State) {
    Sound(c) && MainOk(c, s) && forall k :: 0 <= k < |s.works| ==> WorkOk(c, k, s.works[k])
  }

  /** The compress list holds the jobs not yet taken, in order, and the write
      list those inserted and not yet popped, in order; both locks are right. */
  ghost predicate ListsOk(s: State) {
    var t := |s.works| - |s.waiting|;
    t >= 0 && s.have == |s.waiting| &&
    (forall i :: 0 <= i < |s.waiting| ==> s.waiting[i] == t + i) &&
    (forall k :: 0 <= k < |s.works| ==> (s.works[k].compressing == Queued <==> k >= t)) &&
    Increasing(s.list) && s.first == FirstOf(s.list) &&
    (forall k: nat :: k in s.list <==> k < |s.works| && s.works[k].writing == Listed)
  }

  // ---- Claims ----

  /** The reasons for which a buffer can be in use. */
  datatype Owner = MainCurr | MainNext | MainHold | MainDict | MainPast
    | JobInput(k: nat) | JobCheck(k: nat) | JobDict(k: nat) | JobOutput(k: nat)

  function Claim(s: State, o: Owner): Option<nat> {
    match o
    case MainCurr => s.main.curr
    case MainNext => s.main.next
    case MainHold => s.main.hold
    case MainDict => s.main.dict
    case MainPast => s.main.past
    case JobInput(k) => if k < |s.works| && Progress(s.works[k].writing) < 3 then Some(s.works[k].inp) else None
    case JobCheck(k) => if k < |s.works| && 5 <= Rank(s.works[k].compressing) < 7 then Some(s.works[k].inp) else None
    case JobDict(k) => if k < |s.works| && Rank(s.works[k].compressing) < 2 then s.works[k].dict else None
    case JobOutput(k) => if k < |s.works| && Progress(s.works[k].writing) < 4 then s.works[k].out else None
  }

  ghost function Names(n: nat): set<Owner> {
    {MainCurr, MainNext, MainHold, MainDict, MainPast} +
    (set k | 0 <= k < n :: JobInput(k)) + (set k | 0 <= k < n :: JobCheck(k)) +
    (set k | 0 <= k < n :: JobDict(k)) + (set k | 0 <= k < n :: JobOutput(k))
  }

  ghost function Claims(s: State): (m: map<Owner, nat>)
    ensures forall o :: o in m <==> Claim(s, o).Some?
    ensures forall o :: o in m ==> Claim(s, o) == Some(m[o])
  {
    map o | o in Names(|s.works|) && Claim(s, o).Some? :: Claim(s, o).value
  }

  ghost function Holders(m: map<Owner, nat>, id: nat): set<Owner> {
    set o | o in m && m[o] == id
  }

  /** The number of users of a buffer. */
  ghost function Users(s: State, id: nat): nat {
    |Holders(Claims(s), id)|
  }

  /** Every use count is right (and what is not a buffer has no users). */
  ghost predicate CountsOk(s: State) {
    forall id: nat :: At(s.spaces, id).uses == Users(s, id)
  }

  ghost function Assign(m: map<Owner, nat>, o: Owner, v: Option<nat>): map<Owner, nat> {
    if v.Some? then m[o := v.value] else m - {o}
  }

  lemma Assigned(m: map<Owner, nat>, o: Owner, v: Option<nat>, id: nat)
    ensures |Holders(Assign(m, o, v), id)| ==
            |Holders(m, id)| - If(o in m && m[o] == id) + If(v == Some(id))
  {
    SameBut(Holders(m, id), Holders(Assign(m, o, v), id), o);
  }

  lemma SameBut(was: set<Owner>, now: set<Owner>, o: Owner)
    requires forall p :: p != o ==> (p in was <==> p in now)
    ensures |now| == |was| - If(o in was) + If(o in now)
  {
    assert was - {o} == now - {o};
    assert |was - {o}| == |was| - If(o in was);
    assert |now - {o}| == |now| - If(o in now);
  }

  lemma SameMap(m: map<Owner, nat>, n: map<Owner, nat>)
    requires forall o :: o in m <==> o in n
    requires forall o :: o in m ==> m[o] == n[o]
    ensures m == n
  {
  }

  /** What owner `o` does to the number of users of a buffer. */
  function Change(s: State, s': State, o: Owner, id: nat): int {
    If(Claim(s', o) == Some(id)) - If(Claim(s, o) == Some(id))
  }

  lemma ChangedNone(s: State, s': State)
    requires forall p :: Claim(s', p) == Claim(s, p)
    ensures forall id: nat :: Users(s', id) == Users(s, id)
  {
    hide Claim;
    SameMap(Claims(s'), Claims(s));
  }

  lemma Changed1(s: State, s': State, o: Owner)
    requires forall p :: p != o ==> Claim(s', p) == Claim(s, p)
    ensures forall id: nat :: Users(s', id) == Users(s, id) + Change(s, s', o, id)
  {
    hide Claim, Claims, Holders;
    SameMap(Claims(s'), Assign(Claims(s), o, Claim(s', o)));
    forall id: nat ensures Users(s', id) == Users(s, id) + Change(s, s', o, id) {
      Assigned(Claims(s), o, Claim(s', o), id);
    }
  }

  lemma Changed2(s: State, s': State, o: Owner, q: Owner)
    requires o != q && forall p :: p != o && p != q ==> Claim(s', p) == Claim(s, p)
    ensures forall id: nat :: Users(s', id) == Users(s, id) + Change(s, s', o, id) + Change(s, s', q, id)
  {
    hide Claim, Claims, Holders, Assign;
    ClaimsChanged2(s, s', o, q);
    var m := Assign(Claims(s), o, Claim(s', o));
    AssignOther(Claims(s), o, Claim(s', o), q);
    forall id: nat ensures Users(s', id) == Users(s, id) + Change(s, s', o, id) + Change(s, s', q, id) {
      Assigned(Claims(s), o, Claim(s', o), id);
      Assigned(m, q, Claim(s', q), id);
    }
  }

  lemma ClaimsChanged2(s: State, s': State, o: Owner, q: Owner)
    requires o != q && forall p :: p != o && p != q ==> Claim(s', p) == Claim(s, p)
    ensures Claims(s') == Assign(Assign(Claims(s), o, Claim(s', o)), q, Claim(s', q))
  {
    hide Claim, Claims;
    SameMap(Claims(s'), Assign(Assign(Claims(s), o, Claim(s', o)), q, Claim(s', q)));
  }

  lemma AssignOther(m: map<Owner, nat>, o: Owner, v: Option<nat>, q: Owner)
    requires q != o
    ensures q in Assign(m, o, v) <==> q in m
    ensures q in m ==> Assign(m, o, v)[q] == m[q]
  {
  }

  /** A buffer in use by two has a count of at least two; by one, of at least one. */
  lemma UsersAtLeast(s: State, o: Owner, id: nat)
    requires CountsOk(s) && Claim(s, o) == Some(id)
    ensures At(s.spaces, id).uses >= 1 && id < |s.spaces|
    ensures forall p :: p != o && Claim(s, p) == Some(id) ==> At(s.spaces, id).uses >= 2
  {
    hide Claim;
    var h := Holders(Claims(s), id);
    assert o in h && At(s.spaces, id).uses == |h|;
    forall p | p != o && Claim(s, p) == Some(id) ensures |h| >= 2 {
      assert {o, p} <= h;
      Subset({o, p}, h);
    }
  }

  lemma Subset(a: set<Owner>, b: set<Owner>)
    requires a <= b
    ensures |a| <= |b|
  {
    assert b == a + (b - a);
  }

  /** What nobody counts, nobody uses. */
  lemma FreeIsUnclaimed(s: State, id: nat)
    requires CountsOk(s) && At(s.spaces, id).uses == 0
    ensures forall o :: Claim(s, o) != Some(id)
  {
    hide Claim;
    forall o | Claim(s, o) == Some(id) ensures false {
      UsersAtLeast(s, o, id);
    }
  }

  // ---- Every step keeps the counts right ----

  lemma CountedGet(c: Config, s: State, id: nat)
    requires CountsOk(s) && MainCan(c, s, Get(id)) && s.main.next == None
    ensures CountsOk(MainStep(c, s, Get(id)))
  {
    hide Users, CanGet, CountsOk;
    var s' := MainStep(c, s, Get(id));
    GotIsFree(s, Inputs, id);
    if s.main.phase.NeedRest? {
      UsersAtLeast(s, MainCurr, s.main.curr.value);
    }
    Changed1(s, s', MainNext);
    CountsFollow(s, s');
  }

  lemma GotIsFree(s: State, pool: Pool, id: nat)
    requires CanGet(s, pool, id)
    ensures At(s.spaces, id).uses == 0 && id <= |s.spaces|
  {
  }

  lemma NoNextYet(c: Config, s: State, id: nat)
    requires ShapeOk(c, s) && MainCan(c, s, Get(id))
    ensures s.main.next == None
  {
    hide WorkOk, CanGet;
  }

  /** The counts are right if they change as the numbers of users do. */
  lemma CountsFollow(s: State, s': State)
    requires CountsOk(s)
    requires forall id: nat :: At(s'.spaces, id).uses - At(s.spaces, id).uses == Users(s', id) - Users(s, id)
    ensures CountsOk(s')
  {
    hide Users, At;
  }

  lemma CountedShift(c: Config, s: State)
    requires ShapeOk(c, s) && CountsOk(s) && MainCan(c, s, Shift)
    ensures CountsOk(DoShift(s))
  {
    hide Users, WorkOk, DictOf, GivesDict, CountsOk, Plan, SplitsAt, Sound;
    var m := s.main;
    var s1 := s.(main := m.(curr := m.next, next := None));
    Changed2(s, s1, MainCurr, MainNext);
    Changed2(s1, DoShift(s), MainNext, MainHold);
    CountsFollow(s, DoShift(s));
  }

  lemma CountedCut(c: Config, s: State)
    requires ShapeOk(c, s) && CountsOk(s) && MainCan(c, s, CutOff)
    ensures CountsOk(DoCut(c, s))
  {
    hide Users, WorkOk, DictOf, GivesDict, CountsOk, Plan, SplitsAt, Sound;
    Changed2(s, DoCut(c, s), MainNext, MainHold);
    CountsFollow(s, DoCut(c, s));
  }

  lemma CountedOffer(c: Config, s: State, id: nat)
    requires ShapeOk(c, s) && CountsOk(s) && MainCan(c, s, OfferDict(id))
    ensures CountsOk(DoOffer(c, s, id))
  {
    hide Users, WorkOk, DictOf, GivesDict, CountsOk, Plan, SplitsAt, Sound, CanGet, Tail;
    if Copies(c, s) {
      GotIsFree(s, Dicts, id);
    } else {
      UsersAtLeast(s, MainCurr, s.main.curr.value);
    }
    Changed2(s, DoOffer(c, s, id), MainDict, MainPast);
    CountsFollow(s, DoOffer(c, s, id));
  }

  lemma CountedPut(c: Config, s: State)
    requires ShapeOk(c, s) && CountsOk(s) && MainCan(c, s, PutJob)
    ensures CountsOk(DoPut(c, s))
  {
    hide Users, WorkOk, DictOf, GivesDict, CountsOk, Plan, SplitsAt, Sound;
    var k := |s.works|;
    var w := Work(s.main.curr.value, More(s), None, NoDict, None, CheckOf(c.zlib, []), Queued, Unlisted);
    var s1 := s.(works := s.works + [w], main := s.main.(curr := None));
    Changed2(s, s1, MainCurr, JobInput(k));
    Changed2(s1, DoPut(c, s), MainPast, JobDict(k));
    CountsFollow(s, DoPut(c, s));
  }

  lemma CountedDropNext(c: Config, s: State)
    requires ShapeOk(c, s) && CountsOk(s) && MainCan(c, s, DropNext)
    ensures CountsOk(DoDropNext(s))
  {
    hide Users, WorkOk, DictOf, GivesDict, CountsOk, Plan, SplitsAt, Sound;
    UsersAtLeast(s, MainNext, s.main.next.value);
    Changed1(s, DoDropNext(s), MainNext);
    CountsFollow(s, DoDropNext(s));
  }

  lemma CountedMain(c: Config, s: State, step: Step)
    requires ShapeOk(c, s) && CountsOk(s) && MainCan(c, s, step)
    ensures CountsOk(MainStep(c, s, step))
  {
    hide ShapeOk, CountsOk, DoRead, DoSave, DoShift, DoCut, DoOffer, DoPut, DoDropNext, CanGet;
    match step
    case Get(id) => NoNextYet(c, s, id); CountedGet(c, s, id);
    case Shift => CountedShift(c, s);
    case CutOff => CountedCut(c, s);
    case OfferDict(id) => CountedOffer(c, s, id);
    case PutJob => CountedPut(c, s);
    case DropNext => CountedDropNext(c, s);
    case Join => CountedSame(s, MainStep(c, s, Join));
  }

  lemma CountedSame(s: State, s': State)
    requires CountsOk(s) && forall id: nat :: At(s'.spaces, id).uses == At(s.spaces, id).uses
    requires forall p :: Claim(s', p) == Claim(s, p)
    ensures CountsOk(s')
  {
    hide Users, At, Claim;
    ChangedNone(s, s');
  }

  /** Steps that move a job along without touching a buffer. */
  lemma CountedAlong(s: State, s': State, k: nat)
    requires CountsOk(s) && k < |s.works| && s'.main == s.main
    requires forall id: nat :: At(s'.spaces, id).uses == At(s.spaces, id).uses
    requires |s'.works| == |s.works| && forall j :: 0 <= j < |s.works| && j != k ==> s'.works[j] == s.works[j]
    requires var w, w' := s.works[k], s'.works[k];
             w'.inp == w.inp && w'.dict == w.dict && w'.out == w.out &&
             (Progress(w.writing) < 3 <==> Progress(w'.writing) < 3) &&
             (Progress(w.writing) < 4 <==> Progress(w'.writing) < 4) &&
             (Rank(w.compressing) < 2 <==> Rank(w'.compressing) < 2) &&
             (5 <= Rank(w.compressing) < 7 <==> 5 <= Rank(w'.compressing) < 7)
    ensures forall p :: Claim(s', p) == Claim(s, p)
    ensures CountsOk(s')
  {
    hide CountsOk;
    CountedSame(s, s');
  }

  lemma CountedPrime(c: Config, s: State, k: nat)
    requires ShapeOk(c, s) && CountsOk(s) && IsAt(s, k, Taken)
    ensures CountsOk(DoPrime(s, k))
  {
    hide Users, WorkOk, MainOk, CountsOk;
    if s.works[k].dict.Some? {
      UsersAtLeast(s, JobDict(k), s.works[k].dict.value);
    }
    Changed1(s, DoPrime(s, k), JobDict(k));
    CountsFollow(s, DoPrime(s, k));
  }

  lemma CountedFit(c: Config, s: State, k: nat, id: nat)
    requires ShapeOk(c, s) && CountsOk(s) && CompressCan(c, s, Fit(k, id))
    ensures CountsOk(DoFit(s, k, id))
  {
    hide Users, MainOk, CountsOk, DictOf, CanGet;
    assert WorkOk(c, k, s.works[k]);
    GotIsFree(s, Outputs, id);
    Changed1(s, DoFit(s, k, id), JobOutput(k));
    CountsFollow(s, DoFit(s, k, id));
  }

  lemma CountedReserve(c: Config, s: State, k: nat)
    requires ShapeOk(c, s) && CountsOk(s) && IsAt(s, k, Deflated)
    ensures CountsOk(DoReserve(s, k))
  {
    hide Users, MainOk, CountsOk, DictOf;
    assert WorkOk(c, k, s.works[k]);
    UsersAtLeast(s, JobInput(k), s.works[k].inp);
    Changed1(s, DoReserve(s, k), JobCheck(k));
    CountsFollow(s, DoReserve(s, k));
  }

  lemma CountedSum(c: Config, s: State, k: nat)
    requires ShapeOk(c, s) && CountsOk(s) && IsAt(s, k, Inserted)
    ensures CountsOk(DoSum(c, s, k))
  {
    hide Users, MainOk, WorkOk, CountsOk, DictOf;
    UsersAtLeast(s, JobCheck(k), s.works[k].inp);
    Changed1(s, DoSum(c, s, k), JobCheck(k));
    CountsFollow(s, DoSum(c, s, k));
  }

  lemma CountedCompress(c: Config, s: State, step: Step)
    requires ShapeOk(c, s) && ListsOk(s) && CountsOk(s) && CompressCan(c, s, step)
    ensures CountsOk(CompressStep(c, s, step))
  {
    hide ShapeOk, CountsOk, DoPrime, DoFit, DoReserve, DoSum, CanGet, Insert, FirstOf, Claim;
    match step
    case Take => CountedAlong(s, DoTake(s), s.waiting[0]);
    case Prime(k) => CountedPrime(c, s, k);
    case Fit(k, id) => CountedFit(c, s, k, id);
    case Deflate(k) => CountedAlong(s, DoDeflate(c, s, k), k);
    case Reserve(k) => CountedReserve(c, s, k);
    case InsertJob(k) => UnlistedBefore(c, s, k); CountedAlong(s, DoInsert(s, k), k);
    case Checksum(k) => CountedSum(c, s, k);
    case Calculate(k) => CountedAlong(s, DoCalculate(s, k), k);
  }

  lemma UnlistedBefore(c: Config, s: State, k: nat)
    requires ShapeOk(c, s) && IsAt(s, k, Reserved)
    ensures s.works[k].writing == Unlisted
  {
    assert WorkOk(c, k, s.works[k]);
  }

  lemma CountedCount(c: Config, s: State)
    requires CountsOk(s) && WriterCan(c, s, Count)
    ensures CountsOk(DoCount(s))
  {
    hide Users, CountsOk;
    var k := s.writer.seqno;
    UsersAtLeast(s, JobInput(k), s.works[k].inp);
    Changed1(s, DoCount(s), JobInput(k));
    CountsFollow(s, DoCount(s));
  }

  lemma CountedWrite(c: Config, s: State)
    requires CountsOk(s) && WriterCan(c, s, Write)
    ensures CountsOk(DoWrite(s))
  {
    hide Users, CountsOk;
    var k := s.writer.seqno;
    UsersAtLeast(s, JobOutput(k), s.works[k].out.value);
    Changed1(s, DoWrite(s), JobOutput(k));
    CountsFollow(s, DoWrite(s));
  }

  lemma CountedWriter(c: Config, s: State, step: Step)
    requires ListsOk(s) && CountsOk(s) && WriterCan(c, s, step)
    ensures CountsOk(WriterStep(c, s, step))
  {
    hide CountsOk, DoCount, DoWrite, FirstOf, Claim, Combine, CheckOf;
    match step
    case Header => SameClaims(s, WriterStep(c, s, Header));
    case Pop => FirstIsListed(s); CountedAlong(s, DoPop(s), s.list[0]);
    case Count => CountedCount(c, s);
    case Write => CountedWrite(c, s);
    case AddCheck => CountedAlong(s, DoAddCheck(c, s), s.writer.seqno);
    case Trailer => SameClaims(s, WriterStep(c, s, Trailer));
  }

  lemma FirstIsListed(s: State)
    requires ListsOk(s) && s.list != []
    ensures s.list[0] < |s.works| && s.works[s.list[0]].writing == Listed
  {
    assert s.list[0] in s.list;
  }

  lemma SameClaims(s: State, s': State)
    requires s'.spaces == s.spaces && s'.main == s.main && s'.works == s.works && CountsOk(s)
    ensures forall p :: Claim(s', p) == Claim(s, p)
    ensures CountsOk(s')
  {
    hide CountsOk;
    CountedSame(s, s');
  }
}
