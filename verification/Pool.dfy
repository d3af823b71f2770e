/** The pool of buffers of `examples/pgz.c` at the level of its locks: taking a
    buffer locks the pool and then the buffer's use count, dropping the last use
    locks them the other way round. */
module Pool {
  import opened Basics

  /** Who has the lock of a buffer's use count: `use_space`; `drop_space` before
      and after it has put the buffer on the list; `get_space` before and after
      it has let go of the pool. */
  datatype UseLock = Unlocked | Using | Dropping | Parked | Taking | Taken

  /** `value` is the use count, `refs` the uses that no operation is busy with. */
  datatype Space = Space(value: nat, refs: nat, lock: UseLock)

  /** Who has the pool's lock: `get_space` before it has found a buffer, with the
      first buffer on the list locked, and with it off the list; `drop_space`
      before and after the buffer is on the list. */
  datatype HaveLock = Free | Getting | Pulling(id: nat) | Pulled(id: nat) | Pushing(id: nat) | Pushed(id: nat)

  /** `limit` is negative if there is none; `waiting` threads wait for a buffer,
      and `making` threads allocate one. */
  datatype State = State(spaces: seq<Space>, have: HaveLock, value: int, list: seq<nat>,
                         limit: int, made: nat, waiting: nat, making: nat)

  function Initial(limit: int): State {
    State([], Free, 0, [], limit, 0, 0, 0)
  }

  function At(s: State, id: nat): Space {
    if id < |s.spaces| then s.spaces[id] else Space(0, 0, Unlocked)
  }

  function Put(s: State, id: nat, space: Space): (r: seq<Space>)
    ensures |r| == |s.spaces|
    ensures id < |s.spaces| ==> r == s.spaces[id := space]
  {
    if id < |s.spaces| then s.spaces[id := space] else s.spaces
  }

  datatype Step =
    | BeginGet | Wait | Wake | LockFirst | TakeOff | EndPull | Make | Made | Took(id: nat)
    | LockUse(id: nat) | EndUse(id: nat)
    | LockDrop(id: nat) | DropShared(id: nat) | LockPool(id: nat) | PutOn | EndPush | EndDrop(id: nat)

  /** `get_space` has to wait: nothing to hand out and nothing to make. */
  predicate MustWait(s: State) {
    s.limit == 0 && s.value == 0
  }

  predicate Can(s: State, step: Step) {
    match step
    case BeginGet => s.have == Free
    case Wait => s.have == Getting && MustWait(s)
    case Wake => s.have == Free && s.waiting > 0 && s.value != 0
    case LockFirst => s.have == Getting && !MustWait(s) && s.list != [] && At(s, s.list[0]).lock == Unlocked
    case TakeOff => s.have.Pulling? && s.list != []
    case EndPull => s.have.Pulled?
    case Make => s.have == Getting && !MustWait(s) && s.list == []
    case Made => s.making > 0
    case Took(id) => At(s, id).lock == Taken
    case LockUse(id) => At(s, id).lock == Unlocked && At(s, id).refs > 0
    case EndUse(id) => At(s, id).lock == Using
    case LockDrop(id) => At(s, id).lock == Unlocked && At(s, id).refs > 0
    case DropShared(id) => At(s, id).lock == Dropping && At(s, id).value != 1 && s.have != Pushing(id) && s.have != Pushed(id)
    case LockPool(id) => At(s, id).lock == Dropping && At(s, id).value == 1 && s.have == Free
    case PutOn => s.have.Pushing?
    case EndPush => s.have.Pushed?
    case EndDrop(id) => At(s, id).lock == Parked
  }

  function Less(n: nat): nat { if n == 0 then 0 else n - 1 }

  function Next(s: State, step: Step): State
    requires Can(s, step)
  {
    match step
    case BeginGet => s.(have := Getting)
    case Wait => s.(have := Free, waiting := s.waiting + 1)
    case Wake => s.(have := Getting, waiting := s.waiting - 1)
    case LockFirst =>
      var id := s.list[0];
      s.(have := Pulling(id), spaces := Put(s, id, At(s, id).(lock := Taking)))
    case TakeOff => s.(list := s.list[1..], have := Pulled(s.have.id))
    case EndPull =>
      var id := s.have.id;
      s.(value := s.value - 1, have := Free, spaces := Put(s, id, At(s, id).(lock := Taken)))
    case Make => s.(limit := if s.limit > 0 then s.limit - 1 else s.limit, made := s.made + 1, have := Free, making := s.making + 1)
    case Made => s.(making := s.making - 1, spaces := s.spaces + [Space(1, 1, Unlocked)])
    case Took(id) => s.(spaces := Put(s, id, Space(1, At(s, id).refs + 1, Unlocked)))
    case LockUse(id) => s.(spaces := Put(s, id, At(s, id).(refs := At(s, id).refs - 1, lock := Using)))
    case EndUse(id) => s.(spaces := Put(s, id, Space(At(s, id).value + 1, At(s, id).refs + 2, Unlocked)))
    case LockDrop(id) => s.(spaces := Put(s, id, At(s, id).(refs := At(s, id).refs - 1, lock := Dropping)))
    case DropShared(id) => s.(spaces := Put(s, id, At(s, id).(value := Less(At(s, id).value), lock := Unlocked)))
    case LockPool(id) => s.(have := Pushing(id))
    case PutOn => s.(list := [s.have.id] + s.list, have := Pushed(s.have.id))
    case EndPush =>
      var id := s.have.id;
      s.(value := s.value + 1, have := Free, spaces := Put(s, id, At(s, id).(lock := Parked)))
    case EndDrop(id) => s.(spaces := Put(s, id, At(s, id).(value := Less(At(s, id).value), lock := Unlocked)))
  }

  // ---- What every step keeps ----

  /** One more use than there are free references while an operation holds one. */
  predicate CountOk(sp: Space) {
    sp.value == sp.refs + (if sp.lock == Using || sp.lock == Dropping || sp.lock == Parked then 1 else 0)
  }

  /** Where a buffer with this number can be. */
  predicate PlaceOk(s: State, id: nat)
    requires id < |s.spaces|
  {
    var sp := s.spaces[id];
    CountOk(sp) &&
    (sp.lock == Taking <==> s.have == Pulling(id) || s.have == Pulled(id)) &&
    (sp.lock == Taking || sp.lock == Taken ==> sp.value == 0) &&
    (s.have == Pushing(id) || s.have == Pushed(id) ==> sp.lock == Dropping && sp.value == 1) &&
    (sp.lock == Parked ==> sp.value == 1) &&
    (id in s.list <==>
      (sp.value == 0 && sp.lock != Taken && s.have != Pulled(id)) || sp.lock == Parked || s.have == Pushed(id))
  }

  ghost predicate Inv(limit: int, s: State) {
    (forall id :: 0 <= id < |s.spaces| ==> PlaceOk(s, id)) &&
    (forall id :: id in s.list ==> id < |s.spaces|) && Distinct(s.list) &&
    s.value == |s.list| + (if s.have.Pulled? then 1 else if s.have.Pushed? then -1 else 0) &&
    (s.have.Pulling? ==> s.list != [] && s.list[0] == s.have.id) &&
    (!s.have.Free? && !s.have.Getting? ==> s.have.id < |s.spaces|) &&
    |s.spaces| + s.making == s.made &&
    (if limit >= 0 then s.limit >= 0 && s.made + s.limit == limit else s.limit < 0)
  }

  lemma InitialInv(limit: int)
    ensures Inv(limit, Initial(limit))
  {
  }

  lemma GetInv(limit: int, s: State, step: Step)
    requires Inv(limit, s) && Can(s, step)
    requires step.BeginGet? || step.Wait? || step.Wake? || step.Make? || step.Made?
    ensures Inv(limit, Next(s, step))
  {
    hide Distinct, CountOk;
    if step.Made? {
      var s' := Next(s, step);
      assert PlaceOk(s', |s.spaces|) by { NewPlace(s'); }
      forall id | 0 <= id < |s.spaces| ensures PlaceOk(s', id) {
        assert PlaceOk(s, id);
      }
    } else {
      var s' := Next(s, step);
      forall id | 0 <= id < |s.spaces| ensures PlaceOk(s', id) {
        assert PlaceOk(s, id);
      }
    }
  }

  lemma NewPlace(s: State)
    requires |s.spaces| > 0 && s.spaces[|s.spaces| - 1] == Space(1, 1, Unlocked)
    requires |s.spaces| - 1 !in s.list && (s.have.Free? || s.have.Getting? || s.have.id < |s.spaces| - 1)
    ensures PlaceOk(s, |s.spaces| - 1)
  {
  }

  lemma OnListInv(limit: int, s: State, step: Step)
    requires Inv(limit, s) && Can(s, step)
    requires step.LockFirst? || step.TakeOff? || step.PutOn?
    ensures Inv(limit, Next(s, step))
  {
    var s' := Next(s, step);
    assert step.PutOn? ==> PlaceOk(s, s.have.id);
    assert step.LockFirst? ==> s.list[0] in s.list;
    assert step.TakeOff? ==> forall id :: id in s.list <==> id == s.list[0] || id in s.list[1..];
    forall id | 0 <= id < |s'.spaces| ensures PlaceOk(s', id) {
      assert PlaceOk(s, id);
    }
  }

  lemma OneSpaceInv(limit: int, s: State, step: Step)
    requires Inv(limit, s) && Can(s, step)
    requires step.Took? || step.LockUse? || step.EndUse? || step.LockDrop? || step.DropShared? || step.EndDrop?
      || step.EndPull? || step.EndPush? || step.LockPool?
    ensures Inv(limit, Next(s, step))
  {
    hide Distinct;
    var s' := Next(s, step);
    forall id | 0 <= id < |s'.spaces| ensures PlaceOk(s', id) {
      assert PlaceOk(s, id);
    }
  }

  lemma StepInv(limit: int, s: State, step: Step)
    requires Inv(limit, s) && Can(s, step)
    ensures Inv(limit, Next(s, step))
  {
    hide Inv, Can, Next;
    if step.BeginGet? || step.Wait? || step.Wake? || step.Make? || step.Made? {
      GetInv(limit, s, step);
    } else if step.LockFirst? || step.TakeOff? || step.PutOn? {
      OnListInv(limit, s, step);
    } else {
      OneSpaceInv(limit, s, step);
    }
  }

  ghost predicate Goes(s: State, s': State) {
    exists step :: Can(s, step) && s' == Next(s, step)
  }

  ghost predicate IsRun(limit: int, run: seq<State>) {
    |run| > 0 && run[0] == Initial(limit) && forall i :: 0 <= i < |run| - 1 ==> Goes(run[i], run[i + 1])
  }

  lemma {:induction false} RunInv(limit: int, run: seq<State>, i: nat)
    requires IsRun(limit, run) && i < |run|
    ensures Inv(limit, run[i])
    decreases i
  {
    hide Inv, Can, Next;
    InitialInv(limit);
    if i > 0 {
      RunInv(limit, run, i - 1);
      assert Goes(run[i - 1], run[i - 1 + 1]);
      var step :| Can(run[i - 1], step) && run[i] == Next(run[i - 1], step);
      StepInv(limit, run[i - 1], step);
    }
  }

  // ---- Locks ----

  /** Steps that only go on with an operation under way. */
  predicate Continues(step: Step) {
    !step.BeginGet? && !step.Wake? && !step.LockUse? && !step.LockDrop?
  }

  ghost predicate CanContinue(s: State) {
    exists step :: Continues(step) && Can(s, step)
  }

  predicate LockHeld(s: State) {
    s.have != Free || exists id :: 0 <= id < |s.spaces| && s.spaces[id].lock != Unlocked
  }

  lemma HaveContinues(limit: int, s: State)
    requires Inv(limit, s) && s.have != Free
    ensures CanContinue(s)
  {
    match s.have
    case Getting =>
      if MustWait(s) {
        assert Can(s, Wait);
      } else if s.list == [] {
        assert Can(s, Make);
      } else {
        var id := s.list[0];
        assert id in s.list;
        assert PlaceOk(s, id);
        if s.spaces[id].lock == Unlocked {
          assert Can(s, LockFirst);
        } else {
          assert Can(s, EndDrop(id));
        }
      }
    case Pulling(id) => assert Can(s, TakeOff);
    case Pulled(id) => assert Can(s, EndPull);
    case Pushing(id) => assert Can(s, PutOn);
    case Pushed(id) => assert Can(s, EndPush);
  }

  /** The opposite orders of locking cannot deadlock: whoever is in the way of a
      lock holder has both locks already, or needs no other. */
  lemma NoDeadlock(limit: int, run: seq<State>, i: nat)
    requires IsRun(limit, run) && i < |run| && (LockHeld(run[i]) || run[i].making > 0)
    ensures CanContinue(run[i])
  {
    hide IsRun, Inv, Can;
    RunInv(limit, run, i);
    var s := run[i];
    if s.have != Free {
      HaveContinues(limit, s);
    } else if s.making > 0 {
      MadeContinues(s);
    } else {
      var id :| 0 <= id < |s.spaces| && s.spaces[id].lock != Unlocked;
      UseContinues(limit, s, id);
    }
  }

  lemma MadeContinues(s: State)
    requires s.making > 0
    ensures CanContinue(s)
  {
    assert Can(s, Made);
  }

  lemma UseContinues(limit: int, s: State, id: nat)
    requires Inv(limit, s) && s.have == Free && id < |s.spaces| && s.spaces[id].lock != Unlocked
    ensures CanContinue(s)
  {
    assert PlaceOk(s, id);
    match s.spaces[id].lock
    case Using => assert Can(s, EndUse(id));
    case Dropping =>
      if s.spaces[id].value == 1 {
        assert Can(s, LockPool(id));
      } else {
        assert Can(s, DropShared(id));
      }
    case Parked => assert Can(s, EndDrop(id));
    case Taken => assert Can(s, Took(id));
  }

  /** A bound on the steps that the operations under way can still take. */
  function Left(s: State): nat {
    HaveLeft(s.have) + SpacesLeft(s.spaces) + s.making
  }

  function HaveLeft(h: HaveLock): nat {
    match h
    case Free => 3
    case Getting => 8
    case Pulling(_) => 6
    case Pulled(_) => 5
    case Pushing(_) => 2
    case Pushed(_) => 1
  }

  function UseLeft(l: UseLock): nat {
    match l
    case Unlocked => 0
    case Dropping => 4
    case _ => 1
  }

  function SpacesLeft(spaces: seq<Space>): nat
    decreases |spaces|
  {
    if spaces == [] then 0 else SpacesLeft(spaces[..|spaces| - 1]) + UseLeft(spaces[|spaces| - 1].lock)
  }

  lemma {:induction false} SpacesLeftUpdate(spaces: seq<Space>, id: nat, sp: Space)
    requires id < |spaces|
    ensures SpacesLeft(spaces[id := sp]) == SpacesLeft(spaces) - UseLeft(spaces[id].lock) + UseLeft(sp.lock)
    decreases |spaces|
  {
    hide UseLeft;
    var n := |spaces| - 1;
    if id < n {
      SpacesLeftUpdate(spaces[..n], id, sp);
      assert spaces[id := sp][..n] == spaces[..n][id := sp];
    } else {
      assert spaces[id := sp][..n] == spaces[..n];
    }
  }

  /** Every operation under way comes to its end, or to its wait for a buffer. */
  lemma OperationsEnd(limit: int, s: State, step: Step)
    requires Inv(limit, s) && Can(s, step) && Continues(step)
    ensures Left(Next(s, step)) < Left(s)
  {
    hide SpacesLeft, Distinct, CountOk;
    var id := if step.LockFirst? then s.list[0] else if step.EndPull? || step.EndPush? then s.have.id
      else if step.Took? || step.EndUse? || step.DropShared? || step.EndDrop? then step.id else 0;
    assert step.LockFirst? ==> s.list[0] in s.list;
    if step.Made? {
      SpacesLeftAppend(s.spaces);
    } else if id < |s.spaces| {
      assert PlaceOk(s, id);
      SpacesLeftUpdate(s.spaces, id, Next(s, step).spaces[id]);
      assert s.spaces == s.spaces[id := s.spaces[id]];
    }
  }

  lemma SpacesLeftAppend(spaces: seq<Space>)
    ensures SpacesLeft(spaces + [Space(1, 1, Unlocked)]) == SpacesLeft(spaces)
  {
    assert (spaces + [Space(1, 1, Unlocked)])[..|spaces|] == spaces;
  }

  // ---- The pool as its users see it ----

  /** The uses of a buffer, where each operation takes effect at one moment. */
  function UsesOf(s: State, id: nat): nat {
    var sp := At(s, id);
    sp.refs +
    (if sp.lock == Using || (sp.lock == Dropping && s.have != Pushed(id)) || sp.lock == Taken || s.have == Pulled(id)
     then 1 else 0)
  }

  /** The use counts of all buffers, including those being allocated. */
  function Uses(s: State): seq<nat> {
    seq(|s.spaces| + s.making, id requires 0 <= id => if id < |s.spaces| then UsesOf(s, id) else 1)
  }

  /** `get_space` all at once: some unused buffer, or a new one if there is none
      and one may be made. */
  ghost predicate Gets(uses: seq<nat>, limit: int, uses': seq<nat>, limit': int) {
    (limit' == limit && exists id :: 0 <= id < |uses| && uses[id] == 0 && uses' == uses[id := 1])
    || ((forall id :: 0 <= id < |uses| ==> uses[id] != 0) && limit != 0 && uses' == uses + [1] &&
        limit' == if limit > 0 then limit - 1 else limit)
  }

  ghost predicate UsesMore(uses: seq<nat>, uses': seq<nat>) {
    exists id :: 0 <= id < |uses| && uses[id] > 0 && uses' == uses[id := uses[id] + 1]
  }

  ghost predicate Drops(uses: seq<nat>, uses': seq<nat>) {
    exists id :: 0 <= id < |uses| && uses[id] > 0 && uses' == uses[id := uses[id] - 1]
  }

  /** Every step is one of the three operations as a whole, or not noticed. */
  ghost predicate Refines(s: State, s': State) {
    (Uses(s') == Uses(s) && s'.limit == s.limit)
    || Gets(Uses(s), s.limit, Uses(s'), s'.limit)
    || (s'.limit == s.limit && (UsesMore(Uses(s), Uses(s')) || Drops(Uses(s), Uses(s'))))
  }

  lemma SameUses(s: State, s': State)
    requires |s'.spaces| == |s.spaces| && s'.making == s.making
    requires forall id :: 0 <= id < |s.spaces| ==> UsesOf(s', id) == UsesOf(s, id)
    ensures Uses(s') == Uses(s)
  {
  }

  lemma OneUse(s: State, s': State, id: nat)
    requires |s'.spaces| == |s.spaces| && s'.making == s.making && id < |s.spaces|
    requires forall x :: 0 <= x < |s.spaces| && x != id ==> UsesOf(s', x) == UsesOf(s, x)
    ensures Uses(s') == Uses(s)[id := UsesOf(s', id)] && Uses(s)[id] == UsesOf(s, id) && id < |Uses(s)|
  {
  }

  /** A buffer is unused exactly when it is on the list (or about to be taken
      off by nobody else). */
  lemma ListedIsUnused(limit: int, s: State, id: nat)
    requires Inv(limit, s) && id < |s.spaces|
    ensures UsesOf(s, id) == 0 <==> id in s.list
  {
    assert PlaceOk(s, id);
  }

  lemma TakeOffRefines(limit: int, s: State)
    requires Inv(limit, s) && Can(s, TakeOff)
    ensures Refines(s, Next(s, TakeOff))
  {
    hide PlaceOk, Distinct;
    var id := s.have.id;
    assert id in s.list;
    ListedIsUnused(limit, s, id);
    OneUse(s, Next(s, TakeOff), id);
  }

  lemma MakeRefines(limit: int, s: State)
    requires Inv(limit, s) && Can(s, Make)
    ensures Refines(s, Next(s, Make))
  {
    hide PlaceOk, Distinct;
    var s' := Next(s, Make);
    assert Uses(s') == Uses(s) + [1];
    forall id | 0 <= id < |Uses(s)| ensures Uses(s)[id] != 0 {
      if id < |s.spaces| {
        ListedIsUnused(limit, s, id);
      }
    }
  }

  lemma MadeRefines(limit: int, s: State)
    requires Inv(limit, s) && Can(s, Made)
    ensures Refines(s, Next(s, Made))
  {
    hide PlaceOk, Distinct;
    assert Uses(Next(s, Made)) == Uses(s);
  }

  lemma UseRefines(limit: int, s: State, step: Step)
    requires Inv(limit, s) && Can(s, step) && (step.EndUse? || step.DropShared? || step.PutOn?)
    ensures Refines(s, Next(s, step))
  {
    hide Distinct;
    var id := if step.PutOn? then s.have.id else step.id;
    assert PlaceOk(s, id);
    OneUse(s, Next(s, step), id);
  }

  lemma QuietRefines(limit: int, s: State, step: Step)
    requires Inv(limit, s) && Can(s, step)
    requires !(step.TakeOff? || step.Make? || step.Made? || step.EndUse? || step.DropShared? || step.PutOn?)
    ensures Refines(s, Next(s, step))
  {
    hide Distinct, Uses;
    var s' := Next(s, step);
    forall id | 0 <= id < |s.spaces| ensures UsesOf(s', id) == UsesOf(s, id) {
      assert PlaceOk(s, id);
    }
    SameUses(s, s');
  }

  /** The locking refines operations that happen at once, on a set of buffers
      in which the free ones are those without users. */
  lemma StepRefines(limit: int, s: State, step: Step)
    requires Inv(limit, s) && Can(s, step)
    ensures Refines(s, Next(s, step))
  {
    hide Inv, Refines, Can, Next;
    match step
    case TakeOff => TakeOffRefines(limit, s);
    case Make => MakeRefines(limit, s);
    case Made => MadeRefines(limit, s);
    case EndUse(_) => UseRefines(limit, s, step);
    case DropShared(_) => UseRefines(limit, s, step);
    case PutOn => UseRefines(limit, s, step);
    case BeginGet => QuietRefines(limit, s, step);
    case Wait => QuietRefines(limit, s, step);
    case Wake => QuietRefines(limit, s, step);
    case LockFirst => QuietRefines(limit, s, step);
    case EndPull => QuietRefines(limit, s, step);
    case Took(_) => QuietRefines(limit, s, step);
    case LockUse(_) => QuietRefines(limit, s, step);
    case LockDrop(_) => QuietRefines(limit, s, step);
    case LockPool(_) => QuietRefines(limit, s, step);
    case EndPush => QuietRefines(limit, s, step);
    case EndDrop(_) => QuietRefines(limit, s, step);
  }

  // ---- Asserts and accounting ----

  /** In every reachable state: the lock's value is the length of the list
      whenever nobody has the lock; made and limit add up; `get_space` finds a
      limit to make under, and `drop_space` a use to drop; and a buffer that is
      handed out has no other user. */
  lemma PoolAccounts(limit: int, run: seq<State>, i: nat)
    requires IsRun(limit, run) && i < |run|
    ensures var s := run[i];
            (s.have == Free || s.have == Getting ==> s.value == |s.list|) &&
            (limit >= 0 ==> s.made + s.limit == limit && s.limit >= 0) &&
            (Can(s, Make) ==> s.limit != 0) &&
            (forall id :: 0 <= id < |s.spaces| && s.spaces[id].lock == Dropping ==> s.spaces[id].value != 0) &&
            (forall id :: 0 <= id < |s.spaces| && s.spaces[id].lock == Taken ==> s.spaces[id].refs == 0)
  {
    hide IsRun, Distinct;
    RunInv(limit, run, i);
    var s := run[i];
    forall id | 0 <= id < |s.spaces|
      ensures s.spaces[id].lock == Dropping ==> s.spaces[id].value != 0
      ensures s.spaces[id].lock == Taken ==> s.spaces[id].refs == 0
    {
      assert PlaceOk(s, id);
    }
  }

  /** A waiting `get_space` is let in as soon as a buffer has come back. */
  lemma WaiterIsWoken(limit: int, run: seq<State>, i: nat)
    requires IsRun(limit, run) && i < |run|
    requires run[i].waiting > 0 && !LockHeld(run[i])
    ensures Can(run[i], Wake) <==> exists id :: 0 <= id < |run[i].spaces| && run[i].spaces[id].refs == 0
  {
    hide IsRun, Distinct;
    RunInv(limit, run, i);
    var s := run[i];
    if s.list != [] {
      assert s.list[0] in s.list;
      assert PlaceOk(s, s.list[0]);
    }
    forall id | 0 <= id < |s.spaces| && s.spaces[id].refs == 0 ensures s.list != [] {
      assert PlaceOk(s, id);
    }
  }

  lemma {:induction false} ListCard(list: seq<nat>, ids: set<nat>)
    requires Distinct(list) && forall id: nat :: id in list <==> id in ids
    ensures |list| == |ids|
    decreases |list|
  {
    if list != [] {
      var n := |list| - 1;
      assert forall id: nat :: id in list <==> id in list[..n] || id == list[n];
      ListCard(list[..n], ids - {list[n]});
    } else {
      assert forall id: nat :: id !in ids;
    }
  }

  /** When every use has been dropped, `free_pool` finds as many buffers on the
      list as were made. */
  lemma FreePoolCounts(limit: int, run: seq<State>, i: nat)
    requires IsRun(limit, run) && i < |run|
    requires !LockHeld(run[i]) && run[i].making == 0
    requires forall id :: 0 <= id < |run[i].spaces| ==> run[i].spaces[id].refs == 0
    ensures |run[i].list| == run[i].made
  {
    hide IsRun, Distinct;
    RunInv(limit, run, i);
    var s := run[i];
    forall id: nat ensures id in s.list <==> id in Ids(|s.spaces|) {
      if id < |s.spaces| {
        assert PlaceOk(s, id);
      }
    }
    ListCard(s.list, Ids(|s.spaces|));
  }
}
