/** Matching of arrived messages with posted receives, `src/fdmi.c`: the
    matching rules, one atomic step per entry point (each holds both queue
    locks), and what holds in every run. */
module Matcher {
  import opened Basics

  const ANY: int := -1

  /** The part of a message or of a posted receive that matching looks at. */
  datatype Msg = Msg(rank: int, tag: int, comm: int, epoch: int, op: bv32)

  const FORCE: bv32 := 2
  const PRESV: bv32 := 4

  predicate Preserved(m: Msg) {
    m.op & PRESV != 0
  }

  /** The filter on arrivals while a failure is handled. It means to let only
      forced messages through, but it joins the flag to the operation instead
      of selecting it, so nothing is ever filtered. */
  predicate Filtered(m: Msg, failing: bool): (dropped: bool)
    ensures !dropped
  {
    failing && m.op | FORCE == 0
  }

  /** `fdmi_is_matched_query`: only the second argument's epoch is looked at. */
  predicate IsMatched(m1: Msg, m2: Msg, epoch: int) {
    m2.epoch >= epoch && Compatible(m1, m2)
  }

  /** Communicator, rank and tag agree, up to wildcards on either side. */
  predicate Compatible(m1: Msg, m2: Msg) {
    m1.comm == m2.comm &&
    (m1.rank == ANY || m2.rank == ANY || m1.rank == m2.rank) &&
    (m1.tag == ANY || m2.tag == ANY || m1.tag == m2.tag)
  }

  // ---- Runs ----

  /** What happens to the matcher. Messages and receives are named by the
      position of their event in the run. */
  datatype Event = Arrive(msg: Msg, failing: bool) | Post(msg: Msg) | Flush

  /** `aq` holds the arrived messages and `pq` the posted receives that wait,
      `pairs` the (message, receive) pairs made so far, and `gone` the messages
      and receives that were discarded. */
  datatype State = State(aq: seq<nat>, pq: seq<nat>, pairs: seq<(nat, nat)>, gone: set<nat>)

  const EMPTY: State := State([], [], [], {})

  function MsgOf(events: seq<Event>, i: nat): Msg {
    if i < |events| && !events[i].Flush? then events[i].msg else Msg(0, 0, 0, 0, 0)
  }

  /** The first position in `queue` of an entry that matches message `a`. */
  function FirstFor(events: seq<Event>, a: nat, queue: seq<nat>, epoch: int, posted: bool): (k: nat)
    ensures k <= |queue|
    ensures k < |queue| ==> Matches(events, a, queue[k], epoch, posted)
    ensures forall j :: 0 <= j < k ==> !Matches(events, a, queue[j], epoch, posted)
    decreases |queue|
  {
    if queue == [] then 0
    else if Matches(events, a, queue[0], epoch, posted) then 0
    else 1 + FirstFor(events, a, queue[1..], epoch, posted)
  }

  /** The test made on a queued entry `q`: against an arrival it is a receive,
      stamped with the epoch when it was posted; against a receive, a message. */
  predicate Matches(events: seq<Event>, a: nat, q: nat, epoch: int, posted: bool) {
    if posted then IsMatched(MsgOf(events, a), MsgOf(events, q).(epoch := epoch), epoch)
    else IsMatched(MsgOf(events, a), MsgOf(events, q), epoch)
  }

  function Keep(events: seq<Event>, queue: seq<nat>): (r: seq<nat>)
    ensures forall q :: q in r <==> q in queue && Preserved(MsgOf(events, q))
    decreases |queue|
  {
    if queue == [] then []
    else
      var q := queue[|queue| - 1];
      Keep(events, queue[..|queue| - 1]) + if Preserved(MsgOf(events, q)) then [q] else []
  }

  /** One event: `t` is its position, and the name of what it brings. */
  function Step(events: seq<Event>, t: nat, s: State, epoch: int): State
    requires t < |events|
  {
    match events[t]
    case Arrive(m, failing) =>
      var k := FirstFor(events, t, s.pq, epoch, true);
      if Filtered(m, failing) then s.(gone := s.gone + {t})
      else if k < |s.pq| then s.(pq := Without(s.pq, k), pairs := s.pairs + [(t, s.pq[k])])
      else if m.epoch >= epoch then s.(aq := s.aq + [t])
      else s.(gone := s.gone + {t})
    case Post(m) =>
      var k := FirstFor(events, t, s.aq, epoch, false);
      if k < |s.aq| then s.(aq := Without(s.aq, k), pairs := s.pairs + [(s.aq[k], t)])
      else s.(pq := s.pq + [t])
    case Flush =>
      var a, p := Keep(events, s.aq), Keep(events, s.pq);
      State(a, p, s.pairs,
            s.gone + (set q | q in s.aq && q !in a) + (set q | q in s.pq && q !in p))
  }

  function Run(events: seq<Event>, t: nat, epoch: int): State
    requires t <= |events|
  {
    if t == 0 then EMPTY else Step(events, t - 1, Run(events, t - 1, epoch), epoch)
  }

  // ---- What every run keeps ----

  /** The queues are in order of arrival; they hold what they should; and
      nothing that waits in one could be paired with what waits in the other. */
  ghost predicate Inv(events: seq<Event>, t: nat, s: State, epoch: int) {
    t <= |events| && Increasing(s.aq) && Increasing(s.pq) &&
    (forall a :: a in s.aq ==> a < t && events[a].Arrive? && events[a].msg.epoch >= epoch) &&
    (forall p :: p in s.pq ==> p < t && events[p].Post?) &&
    (forall a, p :: a in s.aq && p in s.pq ==> !Compatible(events[a].msg, events[p].msg))
  }

  lemma CompatibleSymmetric(m1: Msg, m2: Msg)
    ensures Compatible(m1, m2) <==> Compatible(m2, m1)
    ensures forall e :: Compatible(m1, m2.(epoch := e)) <==> Compatible(m1, m2)
  {
  }

  lemma CompatibleIs(m: Msg, r: Msg)
    ensures Compatible(m, r) <==>
            m.comm == r.comm &&
            (m.rank == r.rank || m.rank == -1 || r.rank == -1) &&
            (m.tag == r.tag || m.tag == -1 || r.tag == -1)
  {
  }

  lemma WithoutFacts(s: seq<nat>, k: nat)
    requires k < |s| && Increasing(s)
    ensures Increasing(Without(s, k))
    ensures forall q :: q in Without(s, k) <==> q in s && q != s[k]
  {
    var w := Without(s, k);
    assert forall i :: 0 <= i < |w| ==> w[i] == if i < k then s[i] else s[i + 1];
    forall q | q in s && q != s[k] ensures q in w {
      var i :| 0 <= i < |s| && s[i] == q;
      assert w[if i < k then i else i - 1] == q;
    }
  }

  lemma {:induction false} KeepFacts(events: seq<Event>, s: seq<nat>)
    requires Increasing(s)
    ensures Increasing(Keep(events, s))
    decreases |s|
  {
    if s != [] {
      KeepFacts(events, s[..|s| - 1]);
      var k := Keep(events, s[..|s| - 1]);
      forall i | 0 <= i < |k| ensures k[i] < s[|s| - 1] {
        assert k[i] in k && k[i] in s[..|s| - 1];
      }
    }
  }

  lemma AppendFacts(s: seq<nat>, t: nat)
    requires Increasing(s) && forall q :: q in s ==> q < t
    ensures Increasing(s + [t])
    ensures forall q :: q in s + [t] <==> q in s || q == t
  {
    forall i | 0 <= i < |s| ensures s[i] < t {
      assert s[i] in s;
    }
  }

  /** None of the entries passed over by the search could have been paired. */
  lemma NoneBefore(events: seq<Event>, t: nat, queue: seq<nat>, epoch: int, posted: bool)
    requires t < |events| && !events[t].Flush?
    requires forall q :: q in queue ==> q < |events| && if posted then events[q].Post? else events[q].Arrive?
    requires !posted ==> forall q :: q in queue ==> events[q].msg.epoch >= epoch
    ensures forall j :: 0 <= j < FirstFor(events, t, queue, epoch, posted) ==>
              queue[j] in queue && !Compatible(events[t].msg, events[queue[j]].msg)
  {
    forall j | 0 <= j < FirstFor(events, t, queue, epoch, posted)
      ensures queue[j] in queue && !Compatible(events[t].msg, events[queue[j]].msg)
    {
      assert !Matches(events, t, queue[j], epoch, posted);
    }
  }

  lemma StepKeepsInv(events: seq<Event>, t: nat, s: State, epoch: int)
    requires t < |events| && Inv(events, t, s, epoch)
    ensures Inv(events, t + 1, Step(events, t, s, epoch), epoch)
  {
    hide Increasing, Without, Keep, FirstFor;
    match events[t]
    case Arrive(m, _) =>
      var k := FirstFor(events, t, s.pq, epoch, true);
      if k < |s.pq| {
        WithoutFacts(s.pq, k);
      } else if m.epoch >= epoch {
        AppendFacts(s.aq, t);
        NoneBefore(events, t, s.pq, epoch, true);
      }
    case Post(m) =>
      var k := FirstFor(events, t, s.aq, epoch, false);
      if k < |s.aq| {
        WithoutFacts(s.aq, k);
      } else {
        AppendFacts(s.pq, t);
        NoneBefore(events, t, s.aq, epoch, false);
        forall a | a in s.aq ensures !Compatible(events[a].msg, m) {
          CompatibleSymmetric(events[a].msg, m);
        }
      }
    case Flush =>
      KeepFacts(events, s.aq);
      KeepFacts(events, s.pq);
  }

  lemma EmptyInv(events: seq<Event>, epoch: int)
    ensures Inv(events, 0, EMPTY, epoch)
  {
  }

  /** In every reachable state no waiting message matches a waiting receive. */
  lemma {:induction false} RunKeepsInv(events: seq<Event>, t: nat, epoch: int)
    requires t <= |events|
    ensures Inv(events, t, Run(events, t, epoch), epoch)
    decreases t
  {
    hide Step, Inv;
    if t == 0 {
      EmptyInv(events, epoch);
    } else {
      RunKeepsInv(events, t - 1, epoch);
      StepKeepsInv(events, t - 1, Run(events, t - 1, epoch), epoch);
    }
  }

  /** No reachable state leaves a message and a receive that agree waiting for
      each other: -1 stands for any rank or any tag, on either side. */
  lemma NothingWaitsForItsMatch(events: seq<Event>, t: nat, epoch: int, a: nat, p: nat)
    requires t <= |events|
    requires a in Run(events, t, epoch).aq && p in Run(events, t, epoch).pq
    ensures a < t && p < t && events[a].Arrive? && events[p].Post?
    ensures events[a].msg.epoch >= epoch
    ensures var m, r := events[a].msg, events[p].msg;
            !(m.comm == r.comm &&
              (m.rank == r.rank || m.rank == -1 || r.rank == -1) &&
              (m.tag == r.tag || m.tag == -1 || r.tag == -1))
  {
    hide Run;
    RunKeepsInv(events, t, epoch);
  }

  /** A receive for any rank and any tag never waits beside a message of its
      communicator. */
  lemma AnyReceiveNeverWaits(events: seq<Event>, t: nat, epoch: int, p: nat)
    requires t <= |events| && p in Run(events, t, epoch).pq && p < |events| && events[p].Post?
    requires events[p].msg.rank == -1 && events[p].msg.tag == -1
    ensures forall a :: a in Run(events, t, epoch).aq ==> MsgOf(events, a).comm != events[p].msg.comm
  {
    hide Run;
    forall a | a in Run(events, t, epoch).aq ensures MsgOf(events, a).comm != events[p].msg.comm {
      NothingWaitsForItsMatch(events, t, epoch, a, p);
    }
  }

  // ---- Nothing lost, nothing paired twice ----

  ghost predicate MessagePaired(s: State, a: nat) {
    exists k :: 0 <= k < |s.pairs| && s.pairs[k].0 == a
  }

  ghost predicate ReceivePaired(s: State, p: nat) {
    exists k :: 0 <= k < |s.pairs| && s.pairs[k].1 == p
  }

  /** Exactly one of three. */
  predicate OneOf(x: bool, y: bool, z: bool) {
    (x || y || z) && !(x && y) && !(x && z) && !(y && z)
  }

  /** Every message (and every receive) so far waits, was discarded, or is in
      a pair, and only one of these; the pairs are compatible and disjoint. */
  ghost predicate Accounted(events: seq<Event>, t: nat, s: State) {
    t <= |events| &&
    (forall i :: 0 <= i < t && events[i].Arrive? ==> OneOf(i in s.aq, i in s.gone, MessagePaired(s, i))) &&
    (forall i :: 0 <= i < t && events[i].Post? ==> OneOf(i in s.pq, i in s.gone, ReceivePaired(s, i))) &&
    (forall k :: 0 <= k < |s.pairs| ==>
      s.pairs[k].0 < t && s.pairs[k].1 < t && events[s.pairs[k].0].Arrive? && events[s.pairs[k].1].Post? &&
      Compatible(events[s.pairs[k].0].msg, events[s.pairs[k].1].msg)) &&
    (forall k, l :: 0 <= k < l < |s.pairs| ==> s.pairs[k].0 != s.pairs[l].0 && s.pairs[k].1 != s.pairs[l].1) &&
    (forall i :: i in s.gone ==> i < t)
  }

  lemma PairedAppend(s: State, a: nat, p: nat, i: nat)
    ensures MessagePaired(s.(pairs := s.pairs + [(a, p)]), i) <==> MessagePaired(s, i) || i == a
    ensures ReceivePaired(s.(pairs := s.pairs + [(a, p)]), i) <==> ReceivePaired(s, i) || i == p
  {
    var s' := s.(pairs := s.pairs + [(a, p)]);
    assert s'.pairs[|s.pairs|] == (a, p);
    forall k | 0 <= k < |s.pairs| ensures s'.pairs[k] == s.pairs[k] {
    }
  }

  lemma AccountedArrive(events: seq<Event>, t: nat, s: State, epoch: int)
    requires t < |events| && events[t].Arrive? && Inv(events, t, s, epoch) && Accounted(events, t, s)
    ensures Accounted(events, t + 1, Step(events, t, s, epoch))
  {
    hide Increasing, Without, FirstFor, Keep, Compatible, MessagePaired, ReceivePaired;
    NotYetPaired(events, t, s);
    var k := FirstFor(events, t, s.pq, epoch, true);
    if k < |s.pq| {
      var p := s.pq[k];
      WithoutFacts(s.pq, k);
      CompatibleSymmetric(MsgOf(events, t), MsgOf(events, p));
      PairAccounted(events, t, s, t, p, s.(pq := Without(s.pq, k), pairs := s.pairs + [(t, p)]));
    } else if events[t].msg.epoch >= epoch {
      AppendFacts(s.aq, t);
      SamePairs(s, s.(aq := s.aq + [t]));
    } else {
      SamePairs(s, s.(gone := s.gone + {t}));
    }
  }

  lemma SamePairs(s: State, s': State)
    requires s.pairs == s'.pairs
    ensures forall i :: MessagePaired(s', i) <==> MessagePaired(s, i)
    ensures forall i :: ReceivePaired(s', i) <==> ReceivePaired(s, i)
  {
  }

  lemma NotYetPaired(events: seq<Event>, t: nat, s: State)
    requires Accounted(events, t, s)
    ensures !MessagePaired(s, t) && !ReceivePaired(s, t) && t !in s.gone
  {
  }

  /** Adding the pair (a, p), where one of them is the event at `t` and the
      other has just been taken from its queue. */
  lemma PairAccounted(events: seq<Event>, t: nat, s: State, a: nat, p: nat, s': State)
    requires t < |events| && Accounted(events, t, s)
    requires a <= t && p <= t && events[a].Arrive? && events[p].Post? && (a == t || p == t)
    requires Compatible(events[a].msg, events[p].msg)
    requires !MessagePaired(s, a) && !ReceivePaired(s, p) && a !in s.gone && p !in s.gone
    requires s'.pairs == s.pairs + [(a, p)] && s'.gone == s.gone
    requires forall q :: q in s'.aq <==> q in s.aq && q != a
    requires forall q :: q in s'.pq <==> q in s.pq && q != p
    ensures Accounted(events, t + 1, s')
  {
    hide Compatible;
    forall i ensures MessagePaired(s', i) <==> MessagePaired(s, i) || i == a
             ensures ReceivePaired(s', i) <==> ReceivePaired(s, i) || i == p {
      PairedAppend(s, a, p, i);
      SamePairs(s', s.(pairs := s.pairs + [(a, p)]));
    }
  }

  lemma AccountedPost(events: seq<Event>, t: nat, s: State, epoch: int)
    requires t < |events| && events[t].Post? && Inv(events, t, s, epoch) && Accounted(events, t, s)
    ensures Accounted(events, t + 1, Step(events, t, s, epoch))
  {
    hide Increasing, Without, FirstFor, Keep, Compatible, MessagePaired, ReceivePaired;
    NotYetPaired(events, t, s);
    var k := FirstFor(events, t, s.aq, epoch, false);
    if k < |s.aq| {
      var a := s.aq[k];
      WithoutFacts(s.aq, k);
      CompatibleSymmetric(MsgOf(events, t), MsgOf(events, a));
      PairAccounted(events, t, s, a, t, s.(aq := Without(s.aq, k), pairs := s.pairs + [(a, t)]));
    } else {
      AppendFacts(s.pq, t);
      SamePairs(s, s.(pq := s.pq + [t]));
    }
  }

  lemma AccountedFlush(events: seq<Event>, t: nat, s: State, epoch: int)
    requires t < |events| && events[t].Flush? && Inv(events, t, s, epoch) && Accounted(events, t, s)
    ensures Accounted(events, t + 1, Step(events, t, s, epoch))
  {
    hide Increasing, Keep, Compatible, MessagePaired, ReceivePaired;
    SamePairs(s, Step(events, t, s, epoch));
  }

  /** In every run, every message and every receive is accounted for: none is
      lost, and each is paired at most once. */
  lemma {:induction false} RunAccounted(events: seq<Event>, t: nat, epoch: int)
    requires t <= |events|
    ensures Accounted(events, t, Run(events, t, epoch))
    decreases t
  {
    hide Step, Inv;
    if t > 0 {
      var s := Run(events, t - 1, epoch);
      RunAccounted(events, t - 1, epoch);
      RunKeepsInv(events, t - 1, epoch);
      match events[t - 1]
      case Arrive(_, _) => AccountedArrive(events, t - 1, s, epoch);
      case Post(_) => AccountedPost(events, t - 1, s, epoch);
      case Flush => AccountedFlush(events, t - 1, s, epoch);
    }
  }

  /** The two of a pair are of one communicator, and agree on rank and tag
      up to -1 on either side. */
  lemma PairsAgree(events: seq<Event>, t: nat, epoch: int, a: nat, p: nat)
    requires t <= |events| && (a, p) in Run(events, t, epoch).pairs
    ensures a < t && p < t && events[a].Arrive? && events[p].Post?
    ensures var m, r := events[a].msg, events[p].msg;
            m.comm == r.comm &&
            (m.rank == r.rank || m.rank == -1 || r.rank == -1) &&
            (m.tag == r.tag || m.tag == -1 || r.tag == -1)
  {
    hide Run;
    RunAccounted(events, t, epoch);
  }

  /** A message that has arrived has exactly one of three fates. */
  lemma MessageFate(events: seq<Event>, t: nat, epoch: int, i: nat)
    requires t <= |events| && i < t && events[i].Arrive?
    ensures var s := Run(events, t, epoch);
            var paired := exists p :: (i, p) in s.pairs;
            (if i in s.aq then 1 else 0) + (if i in s.gone then 1 else 0) + (if paired then 1 else 0) == 1
  {
    hide Run, Increasing, Compatible, MessagePaired, ReceivePaired;
    RunAccounted(events, t, epoch);
    InPair(Run(events, t, epoch), i);
  }

  /** And so has a receive that has been posted. */
  lemma ReceiveFate(events: seq<Event>, t: nat, epoch: int, i: nat)
    requires t <= |events| && i < t && events[i].Post?
    ensures var s := Run(events, t, epoch);
            var paired := exists a :: (a, i) in s.pairs;
            (if i in s.pq then 1 else 0) + (if i in s.gone then 1 else 0) + (if paired then 1 else 0) == 1
  {
    hide Run, Increasing, Compatible, MessagePaired, ReceivePaired;
    RunAccounted(events, t, epoch);
    InPair(Run(events, t, epoch), i);
  }

  /** No message and no receive is in two pairs. */
  lemma PairedOnce(events: seq<Event>, t: nat, epoch: int, a: nat, p: nat, b: nat, q: nat)
    requires t <= |events| && (a, p) in Run(events, t, epoch).pairs && (b, q) in Run(events, t, epoch).pairs
    ensures a == b <==> p == q
  {
    hide Run, Increasing, Compatible, MessagePaired, ReceivePaired;
    RunAccounted(events, t, epoch);
    var s := Run(events, t, epoch);
    var k :| 0 <= k < |s.pairs| && s.pairs[k] == (a, p);
    var l :| 0 <= l < |s.pairs| && s.pairs[l] == (b, q);
    if k < l {
      assert s.pairs[k].0 != s.pairs[l].0;
    } else if l < k {
      assert s.pairs[l].0 != s.pairs[k].0;
    }
  }

  lemma InPair(s: State, i: nat)
    ensures MessagePaired(s, i) <==> exists p :: (i, p) in s.pairs
    ensures ReceivePaired(s, i) <==> exists a :: (a, i) in s.pairs
  {
    if MessagePaired(s, i) {
      var k :| 0 <= k < |s.pairs| && s.pairs[k].0 == i;
      assert s.pairs[k] == (i, s.pairs[k].1);
    }
    if ReceivePaired(s, i) {
      var k :| 0 <= k < |s.pairs| && s.pairs[k].1 == i;
      assert s.pairs[k] == (s.pairs[k].0, i);
    }
  }

  /** What a flush leaves waiting is exactly what asks to be preserved, bit 2
      of the operation. */
  lemma FlushKeepsPreserved(events: seq<Event>, t: nat, epoch: int)
    requires t < |events| && events[t].Flush?
    ensures var s, s' := Run(events, t, epoch), Run(events, t + 1, epoch);
            (forall a :: a in s'.aq <==> a in s.aq && MsgOf(events, a).op & 4 != 0) &&
            (forall p :: p in s'.pq <==> p in s.pq && MsgOf(events, p).op & 4 != 0) &&
            s'.pairs == s.pairs
  {
    hide Run;
    RunStep(events, t, epoch);
  }

  /** Nothing is discarded but messages of an old epoch, on arrival, and what
      waited for a flush without asking to be preserved. */
  lemma {:induction false} GoneFor(events: seq<Event>, t: nat, epoch: int, i: nat)
    requires t <= |events| && i in Run(events, t, epoch).gone
    ensures i < t && !events[i].Flush?
    ensures (events[i].Arrive? && events[i].msg.epoch < epoch) ||
            (events[i].msg.op & 4 == 0 && exists f :: i < f < t && events[f].Flush?)
    decreases t
  {
    hide Run, Increasing, Compatible, FirstFor, Without;
    RunAccounted(events, t, epoch);
    if t == 0 {
      RunStart(events, epoch);
    } else {
      var s := Run(events, t - 1, epoch);
      RunStep(events, t - 1, epoch);
      RunKeepsInv(events, t - 1, epoch);
      if i in s.gone {
        GoneFor(events, t - 1, epoch, i);
      } else if events[t - 1].Flush? {
        assert i in s.aq || i in s.pq;
      }
    }
  }

  lemma RunStart(events: seq<Event>, epoch: int)
    ensures Run(events, 0, epoch) == EMPTY
  {
  }

  // ---- Order ----

  /** The pair made by the event at `t`, if it made one. */
  ghost predicate MakesPair(events: seq<Event>, t: nat, epoch: int, a: nat, p: nat)
    requires t < |events|
  {
    Run(events, t + 1, epoch).pairs == Run(events, t, epoch).pairs + [(a, p)]
  }

  lemma SortedBefore(s: seq<nat>, k: nat, q: nat)
    requires Increasing(s) && k < |s| && q in s && q < s[k]
    ensures exists j :: 0 <= j < k && s[j] == q
  {
    var j :| 0 <= j < |s| && s[j] == q;
    SmallerIsBefore(s, j, k);
  }

  lemma SmallerIsBefore(s: seq<nat>, j: nat, k: nat)
    requires Increasing(s) && j < |s| && k < |s| && s[j] < s[k]
    ensures j < k
  {
  }

  /** An arrival is paired with the first receive that waits for it, and a
      receive with the first message. */
  lemma PairShape(events: seq<Event>, t: nat, epoch: int, a: nat, p: nat)
    requires t < |events| && MakesPair(events, t, epoch, a, p)
    ensures var s := Run(events, t, epoch);
            a <= t && p <= t && events[a].Arrive? && events[p].Post? &&
            if events[t].Arrive? then
              a == t && var k := FirstFor(events, t, s.pq, epoch, true); k < |s.pq| && p == s.pq[k]
            else
              p == t && var k := FirstFor(events, t, s.aq, epoch, false); k < |s.aq| && a == s.aq[k]
  {
    hide Compatible, FirstFor, Increasing, Without, Run;
    var s := Run(events, t, epoch);
    RunKeepsInv(events, t, epoch);
    LastOf(s.pairs, (a, p));
    assert Run(events, t + 1, epoch) == Step(events, t, s, epoch) by { RunStep(events, t, epoch); }
    match events[t]
    case Arrive(_, _) =>
      var k := FirstFor(events, t, s.pq, epoch, true);
      if k < |s.pq| {
        assert s.pq[k] in s.pq;
        LastOf(s.pairs, (t, s.pq[k]));
      }
    case Post(_) =>
      var k := FirstFor(events, t, s.aq, epoch, false);
      if k < |s.aq| {
        assert s.aq[k] in s.aq;
        LastOf(s.pairs, (s.aq[k], t));
      }
    case Flush =>
  }

  lemma RunStep(events: seq<Event>, t: nat, epoch: int)
    requires t < |events|
    ensures Run(events, t + 1, epoch) == Step(events, t, Run(events, t, epoch), epoch)
  {
  }

  /** Messages do not overtake: when receive `p` is paired with message `a`,
      every earlier message it could have taken (wildcards included) has been
      paired before, or discarded. */
  lemma MessagesDoNotOvertake(events: seq<Event>, t: nat, epoch: int, a: nat, p: nat, earlier: nat)
    requires t < |events| && MakesPair(events, t, epoch, a, p)
    requires earlier < a && earlier < |events| && events[earlier].Arrive?
    requires p < |events| && events[p].Post?
    requires var m, r := events[earlier].msg, events[p].msg;
             m.comm == r.comm &&
             (m.rank == r.rank || m.rank == -1 || r.rank == -1) &&
             (m.tag == r.tag || m.tag == -1 || r.tag == -1)
    ensures var s := Run(events, t, epoch); MessagePaired(s, earlier) || earlier in s.gone
  {
    hide Compatible, FirstFor, Increasing, MessagePaired, Run, MakesPair;
    var s := Run(events, t, epoch);
    RunKeepsInv(events, t, epoch);
    RunAccounted(events, t, epoch);
    PairShape(events, t, epoch, a, p);
    CompatibleIs(events[earlier].msg, events[p].msg);
    if earlier in s.aq && !events[t].Arrive? {
      NoneBefore(events, t, s.aq, epoch, false);
      CompatibleSymmetric(events[t].msg, events[earlier].msg);
      SortedBefore(s.aq, FirstFor(events, t, s.aq, epoch, false), earlier);
    }
  }

  /** Receives do not overtake either: a message goes to the first receive
      posted that could take it and still waits. */
  lemma ReceivesDoNotOvertake(events: seq<Event>, t: nat, epoch: int, a: nat, p: nat, earlier: nat)
    requires t < |events| && MakesPair(events, t, epoch, a, p)
    requires earlier < p && earlier < |events| && events[earlier].Post?
    requires a < |events| && events[a].Arrive?
    requires var m, r := events[a].msg, events[earlier].msg;
             m.comm == r.comm &&
             (m.rank == r.rank || m.rank == -1 || r.rank == -1) &&
             (m.tag == r.tag || m.tag == -1 || r.tag == -1)
    ensures var s := Run(events, t, epoch); ReceivePaired(s, earlier) || earlier in s.gone
  {
    hide Compatible, FirstFor, Increasing, ReceivePaired, Run, MakesPair;
    var s := Run(events, t, epoch);
    RunKeepsInv(events, t, epoch);
    RunAccounted(events, t, epoch);
    PairShape(events, t, epoch, a, p);
    CompatibleIs(events[a].msg, events[earlier].msg);
    if earlier in s.pq && events[t].Arrive? {
      NoneBefore(events, t, s.pq, epoch, true);
      SortedBefore(s.pq, FirstFor(events, t, s.pq, epoch, true), earlier);
    }
  }

  lemma LastOf(s: seq<(nat, nat)>, x: (nat, nat))
    ensures (s + [x])[|s|] == x && |s + [x]| == |s| + 1
    ensures forall y :: s + [x] == s + [y] ==> x == y
  {
    forall y | s + [x] == s + [y] ensures x == y {
      assert (s + [x])[|s|] == (s + [y])[|s|];
    }
  }

  // ---- Messages of an old epoch ----

  /** A message of an old epoch is not shut out: only the receive's epoch is
      compared. It is paired exactly when a compatible receive waits for it,
      and otherwise it is discarded; it never waits. */
  lemma StaleArrival(events: seq<Event>, t: nat, epoch: int)
    requires t < |events| && events[t].Arrive? && events[t].msg.epoch < epoch
    ensures var s, s' := Run(events, t, epoch), Run(events, t + 1, epoch);
            t !in s'.aq &&
            (MessagePaired(s', t) <==>
             exists p :: p in s.pq && var m, r := events[t].msg, MsgOf(events, p);
               m.comm == r.comm &&
               (m.rank == r.rank || m.rank == -1 || r.rank == -1) &&
               (m.tag == r.tag || m.tag == -1 || r.tag == -1)) &&
            (t in s'.gone <==> !MessagePaired(s', t))
  {
    hide Compatible, Increasing, FirstFor, Without, MessagePaired, Run;
    var s, s' := Run(events, t, epoch), Run(events, t + 1, epoch);
    RunKeepsInv(events, t, epoch);
    RunKeepsInv(events, t + 1, epoch);
    RunAccounted(events, t, epoch);
    RunAccounted(events, t + 1, epoch);
    RunStep(events, t, epoch);
    NotYetPaired(events, t, s);
    NoneBefore(events, t, s.pq, epoch, true);
    forall p | p in s.pq
      ensures Compatible(events[t].msg, MsgOf(events, p)) <==>
              var m, r := events[t].msg, MsgOf(events, p);
              m.comm == r.comm &&
              (m.rank == r.rank || m.rank == -1 || r.rank == -1) &&
              (m.tag == r.tag || m.tag == -1 || r.tag == -1)
    {
      CompatibleIs(events[t].msg, MsgOf(events, p));
    }
    var k := FirstFor(events, t, s.pq, epoch, true);
    if k < |s.pq| {
      PairedAppend(s, t, s.pq[k], t);
      SamePairs(s', s.(pairs := s.pairs + [(t, s.pq[k])]));
      FoundCompatible(events, t, s.pq, epoch);
    }
  }

  lemma FoundCompatible(events: seq<Event>, t: nat, queue: seq<nat>, epoch: int)
    requires FirstFor(events, t, queue, epoch, true) < |queue|
    ensures exists p :: p in queue && Compatible(MsgOf(events, t), MsgOf(events, p))
  {
    var p := queue[FirstFor(events, t, queue, epoch, true)];
    assert p in queue && Compatible(MsgOf(events, t), MsgOf(events, p).(epoch := epoch));
  }

  /** The receive of epoch 3 gets the message of epoch 0. */
  lemma StaleIsPaired(m: Msg)
    requires m.epoch == 0
    ensures Run([Post(m), Arrive(m, true)], 2, 3).pairs == [(1, 0)]
  {
    var events := [Post(m), Arrive(m, true)];
    assert Run(events, 0, 3) == EMPTY;
    assert Run(events, 1, 3) == State([], [0], [], {});
    assert Matches(events, 1, 0, 3, true);
    RunStep(events, 1, 3);
  }

  // ---- Probing ----

  /** `fdmi_verbs_iprobe`'s test: wildcards count only in the question. */
  predicate Probes(source: int, tag: int, comm: int, m: Msg, epoch: int) {
    m.epoch >= epoch && comm == m.comm &&
    (source == ANY || source == m.rank) && (tag == ANY || tag == m.tag)
  }

  /** The first waiting message that a probe finds, or the queue's length. */
  function Probe(events: seq<Event>, source: int, tag: int, comm: int, queue: seq<nat>, epoch: int): (k: nat)
    ensures k <= |queue|
    ensures k < |queue| ==> Probes(source, tag, comm, MsgOf(events, queue[k]), epoch)
    ensures forall j :: 0 <= j < k ==> !Probes(source, tag, comm, MsgOf(events, queue[j]), epoch)
    decreases |queue|
  {
    if queue == [] then 0
    else if Probes(source, tag, comm, MsgOf(events, queue[0]), epoch) then 0
    else 1 + Probe(events, source, tag, comm, queue[1..], epoch)
  }

  lemma ProbesIs(source: int, tag: int, comm: int, m: Msg, epoch: int)
    ensures Probes(source, tag, comm, m, epoch) <==>
            comm == m.comm && m.epoch >= epoch && (source == -1 || source == m.rank) && (tag == -1 || tag == m.tag)
  {
  }

  /** While messages only arrive, those that wait keep their place in front. */
  lemma {:induction false} ArrivalsKeepWaiting(events: seq<Event>, t: nat, u: nat, epoch: int)
    requires t <= u <= |events| && forall i :: t <= i < u ==> events[i].Arrive?
    ensures var a, b := Run(events, t, epoch).aq, Run(events, u, epoch).aq;
            |a| <= |b| && b[..|a|] == a
    decreases u
  {
    hide Run, FirstFor, Without;
    if t < u {
      ArrivalsKeepWaiting(events, t, u - 1, epoch);
      RunStep(events, u - 1, epoch);
    }
  }

  lemma {:induction false} FirstForExtends(events: seq<Event>, a: nat, q: seq<nat>, r: seq<nat>, epoch: int, posted: bool)
    requires |q| <= |r| && r[..|q|] == q && FirstFor(events, a, q, epoch, posted) < |q|
    ensures FirstFor(events, a, r, epoch, posted) == FirstFor(events, a, q, epoch, posted)
  {
    assert forall j :: 0 <= j < |q| ==> r[..|q|][j] == r[j];
  }

  /** A probe at time `t` reported a waiting message; after any number of
      further arrivals the receive at time `u` asks for exactly the rank and tag
      reported. It takes the message that was probed if and only if no message
      waiting in front of it is compatible with that rank and tag. */
  lemma ProbeThenReceive(events: seq<Event>, t: nat, u: nat, epoch: int, source: int, tag: int, comm: int)
    requires t <= u < |events| && forall i :: t <= i < u ==> events[i].Arrive?
    requires var s := Run(events, t, epoch);
             var k := Probe(events, source, tag, comm, s.aq, epoch);
             k < |s.aq| && events[u].Post? &&
             var m, r := MsgOf(events, s.aq[k]), events[u].msg;
             r.comm == comm && r.rank == m.rank && r.tag == m.tag
    ensures var s := Run(events, t, epoch);
            var k := Probe(events, source, tag, comm, s.aq, epoch);
            MakesPair(events, u, epoch, s.aq[k], u) <==>
            forall j :: 0 <= j < k ==>
              var m, r := MsgOf(events, s.aq[j]), events[u].msg;
              !(m.comm == r.comm &&
                (m.rank == r.rank || m.rank == -1 || r.rank == -1) &&
                (m.tag == r.tag || m.tag == -1 || r.tag == -1))
  {
    hide Increasing, Without, Run, FirstFor, Probe;
    var s, s' := Run(events, t, epoch), Run(events, u, epoch);
    var k := Probe(events, source, tag, comm, s.aq, epoch);
    assert Probes(source, tag, comm, MsgOf(events, s.aq[k]), epoch);
    RunKeepsInv(events, t, epoch);
    ArrivalsKeepWaiting(events, t, u, epoch);
    TakesFirst(events, u, s.aq, k, epoch);
    FirstForExtends(events, u, s.aq, s'.aq, epoch, false);
    RunStep(events, u, epoch);
    var l := FirstFor(events, u, s.aq, epoch, false);
    assert s'.aq[l] == s.aq[l];
    LastOf(s'.pairs, (s.aq[l], u));
    SameEntry(s.aq, k, l);
    forall j | 0 <= j < k
      ensures Compatible(events[u].msg, MsgOf(events, s.aq[j])) <==>
              var m, r := MsgOf(events, s.aq[j]), events[u].msg;
              m.comm == r.comm &&
              (m.rank == r.rank || m.rank == -1 || r.rank == -1) &&
              (m.tag == r.tag || m.tag == -1 || r.tag == -1)
    {
      CompatibleIs(events[u].msg, MsgOf(events, s.aq[j]));
    }
  }

  lemma SameEntry(s: seq<nat>, k: nat, l: nat)
    requires Increasing(s) && k < |s| && l < |s|
    ensures s[k] == s[l] <==> k == l
  {
  }

  lemma TakesFirst(events: seq<Event>, u: nat, queue: seq<nat>, k: nat, epoch: int)
    requires u < |events| && events[u].Post? && k < |queue|
    requires forall q :: q in queue ==> q < |events| && events[q].Arrive? && events[q].msg.epoch >= epoch
    requires Compatible(events[u].msg, MsgOf(events, queue[k]))
    ensures var l := FirstFor(events, u, queue, epoch, false);
            l <= k && (l == k <==> forall j :: 0 <= j < k ==> !Compatible(events[u].msg, MsgOf(events, queue[j])))
  {
    hide FirstFor;
    forall j | 0 <= j < |queue|
      ensures Matches(events, u, queue[j], epoch, false) <==> Compatible(events[u].msg, MsgOf(events, queue[j]))
    {
      assert queue[j] in queue;
    }
    var l := FirstFor(events, u, queue, epoch, false);
    assert Matches(events, u, queue[k], epoch, false);
    if l < k {
      assert Compatible(events[u].msg, MsgOf(events, queue[l]));
    }
  }

  /** What the servers do: probe for anything, then receive the reported rank
      and tag. That always takes the message probed. */
  lemma ProbeAnyThenReceive(events: seq<Event>, t: nat, u: nat, epoch: int, comm: int)
    requires t <= u < |events| && forall i :: t <= i < u ==> events[i].Arrive?
    requires var s := Run(events, t, epoch);
             var k := Probe(events, ANY, ANY, comm, s.aq, epoch);
             k < |s.aq| && events[u].Post? &&
             var m, r := MsgOf(events, s.aq[k]), events[u].msg;
             r.comm == comm && r.rank == m.rank && r.tag == m.tag
    ensures var s := Run(events, t, epoch);
            MakesPair(events, u, epoch, s.aq[Probe(events, ANY, ANY, comm, s.aq, epoch)], u)
  {
    hide Increasing, Run, FirstFor, Probe, MakesPair;
    var s := Run(events, t, epoch);
    RunKeepsInv(events, t, epoch);
    assert forall j :: 0 <= j < |s.aq| ==> s.aq[j] in s.aq;
    ProbeThenReceive(events, t, u, epoch, ANY, ANY, comm);
  }

  /** When no waiting message carries a wildcard, any probe will do. */
  lemma ProbeWithoutWildcards(events: seq<Event>, t: nat, u: nat, epoch: int, source: int, tag: int, comm: int)
    requires t <= u < |events| && forall i :: t <= i < u ==> events[i].Arrive?
    requires var s := Run(events, t, epoch);
             var k := Probe(events, source, tag, comm, s.aq, epoch);
             k < |s.aq| && events[u].Post? &&
             (forall a :: a in s.aq ==> MsgOf(events, a).rank != ANY && MsgOf(events, a).tag != ANY) &&
             var m, r := MsgOf(events, s.aq[k]), events[u].msg;
             r.comm == comm && r.rank == m.rank && r.tag == m.tag
    ensures var s := Run(events, t, epoch);
            MakesPair(events, u, epoch, s.aq[Probe(events, source, tag, comm, s.aq, epoch)], u)
  {
    hide Increasing, Run, FirstFor, Probe, MakesPair;
    var s := Run(events, t, epoch);
    RunKeepsInv(events, t, epoch);
    assert forall j :: 0 <= j < |s.aq| ==> s.aq[j] in s.aq;
    ProbeThenReceive(events, t, u, epoch, source, tag, comm);
  }
}
