/** Three input buffers: enough exactly when no job needs a fourth, and then,
    whatever the interleaving, the main thread never comes past that job. */
module PipelineStuck {
  import opened Pipeline
  import opened PipelineClaims
  import opened PipelineData
  import opened PipelineOutput
  import opened PipelineProgress
  import opened PipelineEnd

  /** The main thread itself has all three buffers. */
  lemma HoldsThree(c: Config, s: State, id: nat)
    requires Alive(c, s) && c.limit == 3 && s.main.phase.NeedRest? && NeedsFourAt(c, |s.works|)
    ensures !CanGet(s, Inputs, id)
  {
    hide WriterOk, ThreadsOk, ListsOk, WorkOk, DictOf, CountsOk, Known, Expect, Plan, SplitsAt, ReadAt, Sound, DictPool;
    var m, ids := s.main, InputIds(s.spaces);
    DictHeld(c, s);
    HoldNotNone(c, s);
    var curr, hold, dict := m.curr.value, m.hold.value, m.dict.value;
    assert HeldBy(c, s, MainCurr) && HeldBy(c, s, MainHold);
    SoleUser(s, MainCurr, curr);
    SoleUser(s, MainHold, hold);
    UsersAtLeast(s, MainDict, dict);
    assert {curr, hold, dict} <= ids;
    AllThree(ids, curr, hold, dict);
    assert IsFree(s.spaces, Inputs, id) ==> id in ids;
  }

  lemma HoldNotNone(c: Config, s: State)
    requires ShapeOk(c, s) && s.main.phase.NeedRest?
    ensures s.main.curr.Some? && s.main.hold.Some?
  {
    hide WorkOk, Plan, SplitsAt, ReadAt;
  }

  lemma AllThree(ids: set<nat>, x: nat, y: nat, z: nat)
    requires x != y && y != z && x != z && {x, y, z} <= ids
    ensures |ids| >= 3
    ensures |ids| == 3 ==> forall id :: id in ids ==> id == x || id == y || id == z
  {
    var rest := ids - {x, y, z};
    assert ids == {x, y, z} + rest;
    assert |ids| == 3 + |rest|;
  }

  /** The main thread has not come past the point where it needs the fourth. */
  predicate Before(s: State, k: nat) {
    |s.works| < k ||
    (|s.works| == k && (s.main.phase.Top? || s.main.phase.NeedNext? || s.main.phase.Cut? || s.main.phase.NeedRest?))
  }

  lemma StaysBefore(c: Config, s: State, step: Step, k: nat)
    requires Alive(c, s) && Sees(c, s) && c.limit == 3 && NeedsFourAt(c, k) && Before(s, k) && Can(c, s, step)
    ensures Before(Next(c, s, step), k)
  {
    hide Safe, LimitOk, ThreadsOk, PoolsOk, Plan, DictPool, CanGet, Contents, Alive, SplitsAt, More;
    if MainCan(c, s, step) {
      if step.Get? && s.main.phase.NeedRest? && |s.works| == k {
        HoldsThree(c, s, step.id);
      }
      if step.CutOff? && |s.works| == k {
        ShortJob(c, s, k);
      }
      if step.PutJob? && |s.works| < k {
        AliveSound(c, s);
        MoreFollows(c, s);
      }
    } else {
      if CompressCan(c, s, step) {
        CompressStays(c, s, step);
      } else {
        WriterStays(c, s, step);
      }
      SameNumber(c, s, step);
    }
  }

  lemma AliveSound(c: Config, s: State)
    requires Alive(c, s)
    ensures Sound(c) && ShapeOk(c, s)
  {
    hide LimitOk, ThreadsOk, PoolsOk, WriterOk, ListsOk, CountsOk, Held;
  }

  lemma MoreFollows(c: Config, s: State)
    requires Sound(c) && Sees(c, s) && s.main.phase.Put? && |s.works| + 1 < |c.jobs|
    ensures More(s)
  {
    hide Contents;
    assert SoundJob(c, |s.works|);
  }

  /** A job that splits its buffer is shorter than what is in it. */
  lemma ShortJob(c: Config, s: State, k: nat)
    requires Alive(c, s) && Sees(c, s) && NeedsFourAt(c, k) && s.main.phase.Cut? && |s.works| == k
    ensures k < |c.jobs| && |c.jobs[k].data| < |Contents(s, s.main.curr)|
  {
    hide Safe, LimitOk, ThreadsOk, PoolsOk, Plan, DictPool, Contents, SplitsAt;
    AliveSound(c, s);
    JobBuffered(c, k);
  }

  lemma {:induction false} RunBefore(c: Config, run: seq<State>, i: nat, k: nat)
    requires Sound(c) && IsRun(c, run) && i < |run| && c.limit == 3 && 0 < k && NeedsFourAt(c, k)
    ensures Before(run[i], k)
    decreases i
  {
    hide Alive, Can, Next, Sees, NeedsFourAt;
    if i > 0 {
      RunBefore(c, run, i - 1, k);
      RunAlive(c, run, i - 1);
      AliveSees(c, run[i - 1]);
      assert Goes(c, run[i - 1], run[i - 1 + 1]);
      var step :| Can(c, run[i - 1], step) && run[i] == Next(c, run[i - 1], step);
      StaysBefore(c, run[i - 1], step, k);
    }
  }

  lemma AliveSees(c: Config, s: State)
    requires Alive(c, s)
    ensures Sees(c, s)
  {
    hide LimitOk, ThreadsOk, PoolsOk, WriterOk, ListsOk, Kept, Sees;
    MainSees(c, s);
  }

  // ---- Main results ----

  /** With three input buffers and a job that needs a fourth, no run comes to its
      end. */
  lemma ThreeAreTooFew(c: Config, run: seq<State>, i: nat)
    requires Sound(c) && IsRun(c, run) && i < |run| && c.limit == 3 && NeedsFour(c)
    ensures run[i].main.phase != Done
  {
    hide IsRun, NeedsFourAt, Alive;
    var k :| 0 < k < |c.jobs| && NeedsFourAt(c, k);
    RunBefore(c, run, i, k);
    RunAlive(c, run, i);
    AliveSound(c, run[i]);
    if run[i].main.phase == Done {
      DoneHasAll(c, run[i]);
    }
  }

  lemma DoneHasAll(c: Config, s: State)
    requires ShapeOk(c, s) && s.main.phase == Done
    ensures |s.works| == |c.jobs|
  {
    hide WorkOk, Plan;
  }

  /** With three input buffers, a run that goes on as long as it can completes
      the stream if and only if no job needs a fourth. */
  lemma ThreeExactly(c: Config, run: seq<State>)
    requires Sound(c) && IsRun(c, run) && c.limit == 3 && !CanGo(c, run[|run| - 1])
    ensures run[|run| - 1].main.phase == Done <==> !NeedsFour(c)
  {
    hide Initial, Goes, NeedsFour, CanGo;
    if NeedsFour(c) {
      ThreeAreTooFew(c, run, |run| - 1);
    } else {
      ThreeAreEnough(c, run);
    }
  }

  /** Every run can be continued until nobody can go on. */
  lemma {:induction false} RunToItsEnd(c: Config, run: seq<State>) returns (whole: seq<State>)
    requires Sound(c) && IsRun(c, run)
    ensures IsRun(c, whole) && |whole| >= |run| && whole[..|run|] == run && !CanGo(c, whole[|whole| - 1])
    decreases 20 * |c.jobs| + 11 - |run|
  {
    hide Can, Next, Initial;
    EveryRunEnds(c, run);
    whole := run;
    if CanGo(c, run[|run| - 1]) {
      var step :| Can(c, run[|run| - 1], step);
      var longer := run + [Next(c, run[|run| - 1], step)];
      Longer(c, run, step);
      EveryRunEnds(c, longer);
      whole := RunToItsEnd(c, longer);
      assert whole[..|run|] == whole[..|longer|][..|run|];
    }
  }

  lemma Longer(c: Config, run: seq<State>, step: Step)
    requires IsRun(c, run) && Can(c, run[|run| - 1], step)
    ensures IsRun(c, run + [Next(c, run[|run| - 1], step)])
  {
    hide Can, Next, Initial;
    var longer := run + [Next(c, run[|run| - 1], step)];
    assert Goes(c, run[|run| - 1], longer[|run|]);
    forall i | 0 <= i < |longer| - 1 ensures Goes(c, longer[i], longer[i + 1]) {
      assert i < |run| - 1 ==> Goes(c, run[i], run[i + 1]);
    }
  }
}
