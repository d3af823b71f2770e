/** The list of extant threads in `examples/yarn.c`: launching, exiting and
    joining, with the count of threads that have exited but are not joined. */
module Threads {
  import opened Basics

  datatype Thread = Thread(id: nat, done: bool)

  // ---- The list ----

  /** The first thread with this identity, or the length. */
  function Find(list: seq<Thread>, id: nat): (k: nat)
    ensures k <= |list| && (k < |list| ==> list[k].id == id)
    ensures forall i :: 0 <= i < k ==> list[i].id != id
    decreases |list|
  {
    if list == [] || list[0].id == id then 0 else 1 + Find(list[1..], id)
  }

  /** The first thread that is done, or the length. */
  function FindDone(list: seq<Thread>): (k: nat)
    ensures k <= |list| && (k < |list| ==> list[k].done)
    ensures forall i :: 0 <= i < k ==> !list[i].done
    decreases |list|
  {
    if list == [] || list[0].done then 0 else 1 + FindDone(list[1..])
  }

  /** Marked as done and moved to the head of the list. */
  function MarkDone(list: seq<Thread>, k: nat): seq<Thread>
    requires k < |list|
  {
    [list[k].(done := true)] + Without(list, k)
  }

  function CountDone(list: seq<Thread>): nat
    decreases |list|
  {
    if list == [] then 0 else (if list[0].done then 1 else 0) + CountDone(list[1..])
  }

  lemma {:induction false} CountAppend(a: seq<Thread>, b: seq<Thread>)
    ensures CountDone(a + b) == CountDone(a) + CountDone(b)
    decreases |a|
  {
    if a == [] {
      assert a + b == b;
    } else {
      assert (a + b)[1..] == a[1..] + b;
      CountAppend(a[1..], b);
    }
  }

  /** The count is the number of places that hold a done thread. */
  lemma {:induction false} CountIs(list: seq<Thread>)
    ensures CountDone(list) == |set k | 0 <= k < |list| && list[k].done|
    decreases |list|
  {
    var all := set k | 0 <= k < |list| && list[k].done;
    if list == [] {
      assert all == {};
    } else {
      var n := |list| - 1;
      var init := list[..n];
      assert list == init + [list[n]];
      CountIs(init);
      CountAppend(init, [list[n]]);
      assert CountDone([list[n]]) == (if list[n].done then 1 else 0) + CountDone([]);
      var some := set k | 0 <= k < |init| && init[k].done;
      assert all == some + if list[n].done then {n} else {};
    }
  }

  lemma CountRemove(list: seq<Thread>, k: nat)
    requires k < |list|
    ensures CountDone(list) == CountDone(Without(list, k)) + (if list[k].done then 1 else 0)
    ensures CountDone(MarkDone(list, k)) == CountDone(list) + (if list[k].done then 0 else 1)
  {
    hide CountDone, Without;
    Apart(list, k);
    CountSplit(list[..k], list[k], list[k + 1..]);
    CountFirst(list[k].(done := true), Without(list, k));
  }

  lemma Apart(list: seq<Thread>, k: nat)
    requires k < |list|
    ensures list == list[..k] + ([list[k]] + list[k + 1..]) && Without(list, k) == list[..k] + list[k + 1..]
  {
  }

  lemma CountFirst(t: Thread, rest: seq<Thread>)
    ensures CountDone([t] + rest) == (if t.done then 1 else 0) + CountDone(rest)
  {
    assert ([t] + rest)[1..] == rest;
  }

  lemma CountSplit(a: seq<Thread>, t: Thread, b: seq<Thread>)
    ensures CountDone(a + ([t] + b)) == CountDone(a + b) + (if t.done then 1 else 0)
  {
    hide CountDone;
    CountAppend(a, [t] + b);
    CountFirst(t, b);
    CountAppend(a, b);
  }

  /** With a count that is not zero there is a thread to join. */
  lemma {:induction false} SomeDone(list: seq<Thread>)
    ensures CountDone(list) > 0 <==> FindDone(list) < |list|
    decreases |list|
  {
    if list != [] {
      SomeDone(list[1..]);
    }
  }

  /** The functions of `yarn.c` on the list and the lock's value. Each holds the
      lock throughout. Failure is reported where the source fails. */
  class Registry {
    var threads: seq<Thread>
    var value: int

    constructor ()
      ensures threads == [] && value == 0
    {
      threads, value := [], 0;
    }

    /** `launch`. */
    method Launch(id: nat)
      modifies this
      ensures threads == [Thread(id, false)] + old(threads) && value == old(value)
      ensures forall s: State :: Agrees(old(threads), old(value), s) && Can(s, LaunchOne) && id == s.launched ==>
                Agrees(threads, value, Next(s, LaunchOne))
    {
      threads := [Thread(id, false)] + threads;
    }

    method Search(id: nat) returns (k: nat)
      ensures k == Find(threads, id)
    {
      k := 0;
      while k < |threads| && threads[k].id != id
        invariant k <= |threads| && Find(threads, id) == k + Find(threads[k..], id)
        decreases |threads| - k
      {
        assert threads[k..][1..] == threads[k + 1..];
        k := k + 1;
      }
    }

    /** `reenter`, just before a thread exits. */
    method Reenter(me: nat) returns (ok: bool)
      modifies this
      ensures var k := Find(old(threads), me);
              ok == (k < |old(threads)|) &&
              if ok then threads == MarkDone(old(threads), k) && value == old(value) + 1
              else threads == old(threads) && value == old(value)
      ensures forall s: State :: Agrees(old(threads), old(value), s) && Can(s, ReenterOne(me)) && !s.failed ==>
                Agrees(threads, value, Next(s, ReenterOne(me))) && ok == !Next(s, ReenterOne(me)).failed
    {
      var match_ := Search(me);
      if match_ == |threads| {
        return false;
      }
      var t := threads[match_].(done := true);
      threads := threads[match_ := t];
      if match_ != 0 {
        threads := [t] + (threads[..match_] + threads[match_ + 1..]);
      }
      value := value + 1;
      ok := true;
    }

    /** `join`, after the thread has exited. */
    method Join(ally: nat) returns (ok: bool)
      modifies this
      ensures var k := Find(old(threads), ally);
              ok == (k < |old(threads)|) &&
              if ok then threads == Without(old(threads), k) && value == old(value) - (if old(threads)[k].done then 1 else 0)
              else threads == old(threads) && value == old(value)
      ensures forall s: State :: Agrees(old(threads), old(value), s) && Can(s, JoinOne(ally)) && !s.failed ==>
                Agrees(threads, value, Next(s, JoinOne(ally))) && ok == !Next(s, JoinOne(ally)).failed
    {
      var match_ := Search(ally);
      if match_ == |threads| {
        return false;
      }
      if threads[match_].done {
        value := value - 1;
      }
      threads := threads[..match_] + threads[match_ + 1..];
      ok := true;
    }

    /** One round of `join_all`, once the count is not zero. */
    method JoinDone() returns (ok: bool, id: nat)
      modifies this
      ensures var k := FindDone(old(threads));
              ok == (k < |old(threads)|) &&
              if ok then id == old(threads)[k].id && threads == Without(old(threads), k) && value == old(value) - 1
              else threads == old(threads) && value == old(value)
      ensures forall s: State :: Agrees(old(threads), old(value), s) && Inv(s) && Can(s, Pick) && Can(Next(s, Pick), Reap) ==>
                ok && id == Next(s, Pick).main.id && Agrees(threads, value, Next(Next(s, Pick), Reap))
    {
      var match_ := 0;
      while match_ < |threads| && !threads[match_].done
        invariant match_ <= |threads| && FindDone(threads) == match_ + FindDone(threads[match_..])
        invariant threads == old(threads) && value == old(value)
        decreases |threads| - match_
      {
        assert threads[match_..][1..] == threads[match_ + 1..];
        match_ := match_ + 1;
      }
      if match_ == |threads| {
        return false, 0;
      }
      id := threads[match_].id;
      value := value - 1;
      threads := threads[..match_] + threads[match_ + 1..];
      ok := true;
    }
  }

  // ---- All threads together ----

  /** The list and the lock's value are those of the state. */
  ghost predicate Agrees(threads: seq<Thread>, value: int, s: State) {
    threads == s.list && value == s.value
  }

  /** The main thread is in `join_all`, called when `before` threads were not
      joined, and has joined `count`: it has the lock, or waits for an exit, or
      waits for one thread to be gone. */
  datatype Main = Outside
    | Looking(count: nat, before: nat) | Sleeping(count: nat, before: nat) | Reaping(count: nat, before: nat, id: nat)

  /** `launched` threads have been made, named by their order; `gone` are those
      that have exited after marking themselves done; `joined` in order of
      joining; `failed` if a search has found nothing. */
  datatype State = State(list: seq<Thread>, value: int, launched: nat, gone: set<nat>, joined: seq<nat>,
                         main: Main, failed: bool)

  const START: State := State([], 0, 0, {}, [], Outside, false)

  datatype Step = LaunchOne | ReenterOne(id: nat) | Exit(id: nat) | JoinOne(id: nat)
    | BeginAll | Sleep | Wake | Pick | Reap | EndAll

  /** Nobody else has the lock. */
  predicate LockFree(s: State) {
    s.main.Outside? || s.main.Sleeping?
  }

  /** The thread has not marked itself done yet. */
  predicate Running(s: State, id: nat) {
    id < s.launched && id !in s.joined && (var k := Find(s.list, id); k == |s.list| || !s.list[k].done)
  }

  predicate Can(s: State, step: Step) {
    match step
    case LaunchOne => s.main == Outside
    case ReenterOne(id) => LockFree(s) && Running(s, id)
    case Exit(id) => id < s.launched && !Running(s, id) && id !in s.gone
    case JoinOne(id) => s.main == Outside && id in s.gone && id !in s.joined
    case BeginAll => s.main == Outside
    case Sleep => s.main.Looking? && s.list != [] && s.value == 0
    case Wake => s.main.Sleeping? && s.value != 0
    case Pick => s.main.Looking? && s.list != [] && s.value != 0
    case Reap => s.main.Reaping? && s.main.id in s.gone
    case EndAll => s.main.Looking? && s.list == []
  }

  function Next(s: State, step: Step): State
    requires Can(s, step)
  {
    match step
    case LaunchOne => s.(list := [Thread(s.launched, false)] + s.list, launched := s.launched + 1)
    case ReenterOne(id) =>
      var k := Find(s.list, id);
      if k == |s.list| then s.(failed := true) else s.(list := MarkDone(s.list, k), value := s.value + 1)
    case Exit(id) => s.(gone := s.gone + {id})
    case JoinOne(id) =>
      var k := Find(s.list, id);
      if k == |s.list| then s.(failed := true)
      else s.(list := Without(s.list, k), value := s.value - (if s.list[k].done then 1 else 0), joined := s.joined + [id])
    case BeginAll => s.(main := Looking(0, |s.list|))
    case Sleep => s.(main := Sleeping(s.main.count, s.main.before))
    case Wake => s.(main := Looking(s.main.count, s.main.before))
    case Pick =>
      var k := FindDone(s.list);
      if k == |s.list| then s.(failed := true) else s.(main := Reaping(s.main.count, s.main.before, s.list[k].id))
    case Reap =>
      var k := Find(s.list, s.main.id);
      if k == |s.list| then s.(failed := true)
      else s.(list := Without(s.list, k), value := s.value - 1, joined := s.joined + [s.main.id],
              main := Looking(s.main.count + 1, s.main.before))
    case EndAll => s.(main := Outside)
  }

  // ---- What every step keeps ----

  predicate Different(list: seq<Thread>) {
    forall i, j :: 0 <= i < j < |list| ==> list[i].id != list[j].id
  }

  predicate InList(list: seq<Thread>, id: nat) {
    Find(list, id) < |list|
  }

  predicate DoneInList(list: seq<Thread>, id: nat) {
    InList(list, id) && list[Find(list, id)].done
  }

  ghost predicate Inv(s: State) {
    !s.failed && s.value == CountDone(s.list) && Different(s.list) &&
    (forall id: nat :: id < s.launched <==> InList(s.list, id) || id in s.joined) &&
    (forall id: nat :: !(InList(s.list, id) && id in s.joined)) && Distinct(s.joined) &&
    (forall id: nat :: id in s.gone ==> id in s.joined || DoneInList(s.list, id)) &&
    (forall id: nat :: id in s.joined ==> id in s.gone) &&
    |s.list| + |s.joined| == s.launched &&
    (!s.main.Outside? ==> s.main.count + |s.list| == s.main.before) &&
    (s.main.Sleeping? ==> s.list != []) &&
    (s.main.Reaping? ==> DoneInList(s.list, s.main.id))
  }

  /** Removing, or marking and moving, one thread. */
  lemma FindAfter(list: seq<Thread>, k: nat, id: nat)
    requires Different(list) && k < |list|
    ensures Different(Without(list, k)) && Different(MarkDone(list, k))
    ensures InList(Without(list, k), id) <==> InList(list, id) && id != list[k].id
    ensures InList(MarkDone(list, k), id) <==> InList(list, id)
    ensures DoneInList(Without(list, k), id) <==> DoneInList(list, id) && id != list[k].id
    ensures DoneInList(MarkDone(list, k), id) <==> DoneInList(list, id) || id == list[k].id
  {
    hide Find;
    RemoveFacts(list, k);
    FindMember(list, id);
    FindMember(Without(list, k), id);
    FindMember(MarkDone(list, k), id);
  }

  lemma RemoveFacts(list: seq<Thread>, k: nat)
    requires Different(list) && k < |list|
    ensures var r := Without(list, k);
            Different(r) && Different(MarkDone(list, k)) &&
            (forall t :: t in r <==> t in list && t != list[k]) &&
            (forall t :: t in r ==> t.id != list[k].id) &&
            (forall t :: t in MarkDone(list, k) <==> t == list[k].(done := true) || t in r)
  {
    var r := Without(list, k);
    assert forall i :: 0 <= i < |r| ==> r[i] == if i < k then list[i] else list[i + 1];
    forall t | t in list && t != list[k] ensures t in r {
      var i :| 0 <= i < |list| && list[i] == t;
      assert r[if i < k then i else i - 1] == t;
    }
  }

  /** Searching by identity decides membership, when identities differ. */
  lemma FindMember(list: seq<Thread>, id: nat)
    requires Different(list)
    ensures InList(list, id) <==> exists t :: t in list && t.id == id
    ensures DoneInList(list, id) <==> Thread(id, true) in list
    ensures InList(list, id) && !DoneInList(list, id) <==> Thread(id, false) in list
  {
    var k := Find(list, id);
    if k < |list| {
      assert list[k] in list;
    }
    forall t | t in list && t.id == id ensures k < |list| && t == list[k] {
      var i :| 0 <= i < |list| && list[i] == t;
    }
  }

  lemma StartInv()
    ensures Inv(START)
  {
  }

  lemma LaunchInv(s: State)
    requires Inv(s) && Can(s, LaunchOne)
    ensures Inv(Next(s, LaunchOne))
  {
    hide CountDone;
    var s' := Next(s, LaunchOne);
    CountFirst(Thread(s.launched, false), s.list);
    forall i | 0 <= i < |s.list| ensures s.list[i].id != s.launched {
      InListAt(s.list, i);
    }
    forall id: nat
      ensures InList(s'.list, id) <==> InList(s.list, id) || id == s.launched
      ensures DoneInList(s'.list, id) <==> DoneInList(s.list, id)
    {
      assert s'.list[1..] == s.list;
    }
  }

  lemma InListAt(list: seq<Thread>, i: nat)
    requires i < |list|
    ensures InList(list, list[i].id)
  {
  }

  /** Search and removal of a listed thread. */
  lemma {:induction false} JoinInv(s: State, id: nat, s': State)
    requires Inv(s) && DoneInList(s.list, id)
    requires var k := Find(s.list, id);
             s' == s.(list := Without(s.list, k), value := s.value - 1, joined := s.joined + [id], main := s'.main)
    requires id in s.gone
    requires if s.main.Outside? then s'.main == Outside
             else s'.main.Looking? && s'.main.count == s.main.count + 1 && s'.main.before == s.main.before
    ensures Inv(s')
  {
    hide CountDone, Find, Without, Different;
    var k := Find(s.list, id);
    CountRemove(s.list, k);
    RemoveLength(s.list, k);
    forall x: nat
      ensures InList(s'.list, x) <==> InList(s.list, x) && x != id
      ensures DoneInList(s'.list, x) <==> DoneInList(s.list, x) && x != id
      ensures Different(s'.list)
    {
      FindAfter(s.list, k, x);
    }
    FindAfter(s.list, k, 0);
  }

  lemma RemoveLength(list: seq<Thread>, k: nat)
    requires k < |list|
    ensures |Without(list, k)| == |list| - 1 && |MarkDone(list, k)| == |list|
  {
  }

  lemma ReenterInv(s: State, id: nat)
    requires Inv(s) && Can(s, ReenterOne(id))
    ensures Inv(Next(s, ReenterOne(id)))
  {
    hide CountDone, Find, Different, MarkDone;
    var s', k := Next(s, ReenterOne(id)), Find(s.list, id);
    assert InList(s.list, id);
    CountRemove(s.list, k);
    RemoveLength(s.list, k);
    forall x: nat
      ensures InList(s'.list, x) <==> InList(s.list, x)
      ensures DoneInList(s'.list, x) <==> DoneInList(s.list, x) || x == id
    {
      FindAfter(s.list, k, x);
    }
    FindAfter(s.list, k, 0);
  }

  lemma StepInv(s: State, step: Step)
    requires Inv(s) && Can(s, step)
    ensures Inv(Next(s, step))
  {
    hide CountDone, Find, Different, MarkDone, Without;
    match step
    case LaunchOne => LaunchInv(s);
    case ReenterOne(id) => ReenterInv(s, id);
    case Exit(id) => assert DoneInList(s.list, id) || id in s.joined;
    case JoinOne(id) => assert DoneInList(s.list, id); JoinInv(s, id, Next(s, step));
    case BeginAll =>
    case Sleep =>
    case Wake =>
    case Pick =>
      SomeDone(s.list);
      PickedIsDone(s.list);
    case Reap => JoinInv(s, s.main.id, Next(s, step));
    case EndAll =>
  }

  lemma PickedIsDone(list: seq<Thread>)
    requires Different(list) && FindDone(list) < |list|
    ensures DoneInList(list, list[FindDone(list)].id)
  {
    FindMember(list, list[FindDone(list)].id);
    assert list[FindDone(list)] in list;
  }

  /** A round of `join_all` joins the first thread that is done. */
  lemma PickReap(s: State)
    requires Inv(s) && Can(s, Pick) && Can(Next(s, Pick), Reap)
    ensures var k, t := FindDone(s.list), Next(Next(s, Pick), Reap);
            k < |s.list| && Next(s, Pick).main.id == s.list[k].id &&
            t.list == Without(s.list, k) && t.value == s.value - 1
  {
    hide CountDone;
    SomeDone(s.list);
    var k := FindDone(s.list);
    InListAt(s.list, k);
    assert Find(s.list, s.list[k].id) == k;
  }

  // ---- Every run ----

  ghost predicate Goes(s: State, s': State) {
    exists step :: Can(s, step) && s' == Next(s, step)
  }

  ghost predicate IsRun(run: seq<State>) {
    |run| > 0 && run[0] == START && forall i :: 0 <= i < |run| - 1 ==> Goes(run[i], run[i + 1])
  }

  lemma {:induction false} RunInv(run: seq<State>, i: nat)
    requires IsRun(run) && i < |run|
    ensures Inv(run[i])
    decreases i
  {
    hide Inv, Can, Next;
    StartInv();
    if i > 0 {
      RunInv(run, i - 1);
      assert Goes(run[i - 1], run[i - 1 + 1]);
      var step :| Can(run[i - 1], step) && run[i] == Next(run[i - 1], step);
      StepInv(run[i - 1], step);
    }
  }

  /** In every run: no search fails; the lock's value is the number of done
      threads in the list; no thread is joined twice, or lost; and `join_all`
      ends with as many as were not joined when it was called. */
  lemma ThreadsAccounted(run: seq<State>, i: nat)
    requires IsRun(run) && i < |run|
    ensures var s := run[i];
            !s.failed && s.value == |set k | 0 <= k < |s.list| && s.list[k].done| && Distinct(s.joined) && |s.list| + |s.joined| == s.launched &&
            (s.main.Looking? && s.list == [] ==> s.main.count == s.main.before)
  {
    hide IsRun, CountDone, Different;
    RunInv(run, i);
    CountIs(run[i].list);
  }

  // ---- `join_all` comes to its end ----

  function MainLeft(s: State): nat {
    match s.main
    case Outside => 0
    case Looking(_, _) => if s.value == 0 then 5 else 2
    case Sleeping(_, _) => if s.value == 0 then 4 else 3
    case Reaping(_, _, _) => 1
  }

  /** Steps to come until `join_all` returns. */
  function Left(s: State): int {
    10 * |s.list| + (|s.list| - CountDone(s.list)) + (s.launched - |s.gone|) + MainLeft(s)
  }

  /** While the main thread is in `join_all`, it or a thread it waits for can go on. */
  lemma JoinAllGoesOn(s: State)
    requires Inv(s) && !s.main.Outside?
    ensures exists step :: Can(s, step)
  {
    hide CountDone, Different;
    match s.main
    case Looking(_, _) =>
      if s.list == [] {
        assert Can(s, EndAll);
      } else if s.value == 0 {
        assert Can(s, Sleep);
      } else {
        assert Can(s, Pick);
      }
    case Sleeping(_, _) =>
      if s.value != 0 {
        assert Can(s, Wake);
      } else {
        SomeDone(s.list);
        InListAt(s.list, 0);
        assert Can(s, ReenterOne(s.list[0].id));
      }
    case Reaping(_, _, id) =>
      if id in s.gone {
        assert Can(s, Reap);
      } else {
        assert Can(s, Exit(id));
      }
  }

  /** And only finitely often. */
  lemma JoinAllEnds(s: State, step: Step)
    requires Inv(s) && !s.main.Outside? && Can(s, step)
    ensures 0 <= Left(Next(s, step)) < Left(s)
  {
    hide CountDone, Find, Different, MarkDone, Without, Inv, Next, Can;
    StepInv(s, step);
    LeftPositive(Next(s, step));
    LeftDecreases(s, step);
  }

  lemma LeftPositive(s: State)
    requires Inv(s)
    ensures Left(s) >= 0
  {
    CountBound(s.list);
    AtMost(s.gone, s.launched);
  }

  lemma {:induction false} CountBound(list: seq<Thread>)
    ensures CountDone(list) <= |list|
    decreases |list|
  {
    if list != [] {
      CountBound(list[1..]);
    }
  }

  lemma LeftReenter(s: State, id: nat)
    requires Inv(s) && !s.main.Outside? && Can(s, ReenterOne(id))
    ensures Left(Next(s, ReenterOne(id))) < Left(s)
  {
    hide CountDone, Find, Different, MarkDone, Without;
    assert InList(s.list, id);
    CountRemove(s.list, Find(s.list, id));
    RemoveLength(s.list, Find(s.list, id));
  }

  lemma LeftExit(s: State, id: nat)
    requires Inv(s) && Can(s, Exit(id))
    ensures Left(Next(s, Exit(id))) < Left(s)
  {
    hide CountDone, Find, Different, MarkDone, Without;
  }

  lemma LeftWait(s: State, step: Step)
    requires Inv(s) && Can(s, step) && (step.Sleep? || step.Wake? || step.EndAll?)
    ensures Left(Next(s, step)) < Left(s)
  {
    hide CountDone, Find, Different, MarkDone, Without;
  }

  lemma LeftPick(s: State)
    requires Inv(s) && Can(s, Pick)
    ensures Left(Next(s, Pick)) < Left(s)
  {
    hide CountDone, Find, Different, MarkDone, Without;
    SomeDone(s.list);
  }

  lemma LeftReap(s: State)
    requires Inv(s) && Can(s, Reap)
    ensures Left(Next(s, Reap)) < Left(s)
  {
    hide CountDone, Find, Different, MarkDone, Without;
    CountRemove(s.list, Find(s.list, s.main.id));
    RemoveLength(s.list, Find(s.list, s.main.id));
  }

  lemma LeftDecreases(s: State, step: Step)
    requires Inv(s) && !s.main.Outside? && Can(s, step)
    ensures Left(Next(s, step)) < Left(s)
  {
    hide Inv, Next, Left;
    match step
    case ReenterOne(id) => LeftReenter(s, id);
    case Exit(id) => LeftExit(s, id);
    case Sleep => LeftWait(s, step);
    case Wake => LeftWait(s, step);
    case Pick => LeftPick(s);
    case Reap => LeftReap(s);
    case EndAll => LeftWait(s, step);
  }
}
