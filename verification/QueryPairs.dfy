/** The two queues of `src/fdmi.c` as objects: the entry points that search and
    change them, proved against the steps of module Matcher. */
module QueryPairs {
  import opened Basics
  import opened Matcher
  import Queue

  /** A queued query, named by the event that brought it. */
  datatype Query = Query(name: nat, msg: Msg)

  predicate Preserving(q: Query) {
    Preserved(q.msg)
  }

  ghost function Kept(s: seq<Query>): (r: seq<Query>)
    ensures forall q :: q in r <==> q in s && Preserving(q)
    decreases |s|
  {
    if s == [] then [] else Kept(s[..|s| - 1]) + if Preserving(s[|s| - 1]) then [s[|s| - 1]] else []
  }

  ghost function Dropped(s: seq<Query>): (r: seq<Query>)
    ensures forall q :: q in r <==> q in s && !Preserving(q)
    decreases |s|
  {
    if s == [] then [] else Dropped(s[..|s| - 1]) + if Preserving(s[|s| - 1]) then [] else [s[|s| - 1]]
  }

  ghost predicate Apart(q: Queue.Queue<Query>, r: Queue.Queue<Query>)
    reads q, r
  {
    q != r && forall i, j :: 0 <= i < |q.nodes| && 0 <= j < |r.nodes| ==> q.nodes[i] != r.nodes[j]
  }

  lemma KeptNext(s: seq<Query>, i: nat)
    requires i < |s|
    ensures Kept(s[..i + 1]) == Kept(s[..i]) + if Preserving(s[i]) then [s[i]] else []
    ensures Dropped(s[..i + 1]) == Dropped(s[..i]) + if Preserving(s[i]) then [] else [s[i]]
    ensures |Kept(s[..i])| <= i
    decreases i
  {
    assert s[..i + 1][..i] == s[..i];
    if i > 0 {
      KeptNext(s, i - 1);
    }
  }

  /** What is still to be visited is where the iteration is, and nowhere else. */
  lemma NextIndex(s: seq<Query>, i: nat)
    requires i < |s| && Distinct(s)
    ensures Queue.FirstIndex(Kept(s[..i]) + s[i..], s[i]) == |Kept(s[..i])|
  {
    var k := Kept(s[..i]);
    forall j | 0 <= j < |k| ensures k[j] != s[i] {
      assert k[j] in k && k[j] in s[..i];
    }
    Queue.FirstIndexIs(k + s[i..], s[i], |k|);
  }

  /** Take the query at position `k`, the one the iteration has just returned,
      to the free queue. */
  method Discard(q: Queue.Queue<Query>, free: Queue.Queue<Query>, query: Query, ghost k: nat)
    requires q.Valid() && free.Valid() && Apart(q, free)
    requires k < |q.nodes| && q.ite == q.NodeAt(k + 1) && Queue.FirstIndex(q.contents, query) == k
    modifies q, q.nodes, free, free.nodes
    ensures q.Valid() && free.Valid() && Apart(q, free)
    ensures q.contents == Without(old(q.contents), k) && q.ite == q.NodeAt(k)
    ensures free.contents == old(free.contents) + [query]
    ensures forall n :: n in q.nodes ==> n in old(q.nodes)
    ensures forall n :: n in free.nodes ==> n in old(free.nodes) || fresh(n)
  {
    hide Queue.FirstIndex, Without, Distinct, Queue.Queue.Valid;
    q.Remove(query);
    free.Enq(query);
  }

  lemma WithoutCurrent(s: seq<Query>, i: nat)
    requires i < |s|
    ensures var k := Kept(s[..i]);
            Without(k + s[i..], |k|) == k + s[i + 1..]
  {
  }

  /** The walk over queue `q`, which held `all`, has come to position `i`:
      what need not be preserved of the queries before it has been added to the
      free queue, which held `was`. */
  ghost predicate Walk(all: seq<Query>, was: seq<Query>, i: nat,
                       q: Queue.Queue<Query>, free: Queue.Queue<Query>, query: Option<Query>)
    reads q, free, q.nodes, free.nodes
  {
    i <= |all| && q.Valid() && free.Valid() && Apart(q, free) &&
    q.contents == Kept(all[..i]) + all[i..] && free.contents == was + Dropped(all[..i]) &&
    query == (if i < |all| then Some(all[i]) else None) &&
    (i < |all| ==> q.ite == q.NodeAt(|Kept(all[..i])| + 1))
  }

  method Visit(q: Queue.Queue<Query>, free: Queue.Queue<Query>, query: Query,
               ghost all: seq<Query>, ghost was: seq<Query>, ghost i: nat) returns (next: Option<Query>)
    requires Distinct(all) && Walk(all, was, i, q, free, Some(query))
    modifies q, q.nodes, free, free.nodes
    ensures Walk(all, was, i + 1, q, free, next)
    ensures forall n :: n in q.nodes ==> n in old(q.nodes)
    ensures forall n :: n in free.nodes ==> n in old(free.nodes) || fresh(n)
  {
    hide Without, Queue.FirstIndex, Kept, Dropped, Queue.Queue.Valid, Distinct;
    ghost var k := |Kept(all[..i])|;
    q.SameLength();
    KeptNext(all, i);
    if !Preserving(query) {
      NextIndex(all, i);
      WithoutCurrent(all, i);
      Discard(q, free, query, k);
    } else {
      assert q.contents == Kept(all[..i + 1]) + all[i + 1..];
      k := k + 1;
    }
    q.SameLength();
    next := q.Iterate(Queue.Next, k);
  }

  /** Each half of `fdmi_flush_query_qp`: walk over the queue and move what need
      not be preserved to the free queue, removing it under the iterator. */
  method FlushQueue(q: Queue.Queue<Query>, free: Queue.Queue<Query>)
    requires q.Valid() && free.Valid() && Apart(q, free) && Distinct(q.contents)
    modifies q, q.nodes, free, free.nodes
    ensures q.Valid() && free.Valid() && Apart(q, free)
    ensures q.contents == Kept(old(q.contents))
    ensures free.contents == old(free.contents) + Dropped(old(q.contents))
    ensures forall e :: e in q.contents <==> e in old(q.contents) && e.msg.op & 4 != 0
    ensures forall n :: n in q.nodes ==> n in old(q.nodes)
    ensures forall n :: n in free.nodes ==> n in old(free.nodes) || fresh(n)
  {
    hide Kept, Dropped, Queue.Queue.Valid, Distinct, Apart, Walk;
    ghost var all, was := q.contents, free.contents;
    ghost var i := 0;
    var query := Begin(q, free);
    while query.Some?
      invariant Walk(all, was, i, q, free, query)
      invariant forall n :: n in q.nodes ==> n in old(q.nodes)
      invariant forall n :: n in free.nodes ==> n in old(free.nodes) || fresh(n)
      decreases |all| - i
    {
      WalkGoesOn(all, was, i, q, free, query.value);
      assert forall j :: 0 <= j < |q.nodes| ==> q.nodes[j] in old(q.nodes);
      assert forall j :: 0 <= j < |free.nodes| ==> free.nodes[j] in old(free.nodes) || fresh(free.nodes[j]);
      query := Visit(q, free, query.value, all, was, i);
      i := i + 1;
    }
    WalkEnds(all, was, i, q, free);
  }

  method Begin(q: Queue.Queue<Query>, free: Queue.Queue<Query>) returns (query: Option<Query>)
    requires q.Valid() && free.Valid() && Apart(q, free)
    modifies q`ite
    ensures Walk(q.contents, free.contents, 0, q, free, query)
  {
    hide Kept, Dropped, Queue.Queue.Valid;
    ghost var all := q.contents;
    q.SameLength();
    NothingKept(all);
    query := q.Iterate(Queue.Head, 0);
    assert all[0..] == all;
  }

  lemma WalkGoesOn(all: seq<Query>, was: seq<Query>, i: nat, q: Queue.Queue<Query>, free: Queue.Queue<Query>, query: Query)
    requires Walk(all, was, i, q, free, Some(query))
    ensures i < |all|
  {
  }

  lemma WalkEnds(all: seq<Query>, was: seq<Query>, i: nat, q: Queue.Queue<Query>, free: Queue.Queue<Query>)
    requires Walk(all, was, i, q, free, None)
    ensures i == |all| && q.Valid() && free.Valid() && Apart(q, free)
    ensures q.contents == Kept(all) && free.contents == was + Dropped(all)
  {
    hide Kept, Dropped, Queue.Queue.Valid, Apart;
    assert all[..|all|] == all;
  }

  lemma NothingKept(s: seq<Query>)
    ensures Kept(s[..0]) == [] && Dropped(s[..0]) == []
  {
  }

  /** The queries of a queue are the named messages, or the named receives,
      which carry the epoch in which they were posted. */
  ghost predicate Named(events: seq<Event>, s: seq<Query>, names: seq<nat>, epoch: int, posted: bool) {
    |s| == |names| &&
    forall i :: 0 <= i < |s| ==>
      s[i].name == names[i] &&
      s[i].msg == if posted then MsgOf(events, names[i]).(epoch := epoch) else MsgOf(events, names[i])
  }

  lemma NamedDifferent(events: seq<Event>, s: seq<Query>, names: seq<nat>, epoch: int, posted: bool)
    requires Named(events, s, names, epoch, posted) && Increasing(names)
    ensures Distinct(s)
  {
  }

  lemma {:induction false} FirstForIs(events: seq<Event>, a: nat, queue: seq<nat>, epoch: int, posted: bool, k: nat)
    requires k <= |queue| && (k < |queue| ==> Matches(events, a, queue[k], epoch, posted))
    requires forall j :: 0 <= j < k ==> !Matches(events, a, queue[j], epoch, posted)
    ensures FirstFor(events, a, queue, epoch, posted) == k
  {
    hide Matches;
  }

  lemma IsMatchedIs(m: Msg, q: Msg, epoch: int)
    ensures IsMatched(m, q, epoch) <==>
            q.epoch >= epoch && m.comm == q.comm &&
            (m.rank == q.rank || m.rank == -1 || q.rank == -1) &&
            (m.tag == q.tag || m.tag == -1 || q.tag == -1)
  {
  }

  lemma SearchIs(msg: Msg, s: seq<Query>, epoch: int, k: nat)
    requires k <= |s| && (k < |s| ==> IsMatched(msg, s[k].msg, epoch))
    requires forall j :: 0 <= j < k ==> !IsMatched(msg, s[j].msg, epoch)
    ensures k < |s| ==>
              var q := s[k].msg;
              q.epoch >= epoch && msg.comm == q.comm &&
              (msg.rank == q.rank || msg.rank == -1 || q.rank == -1) &&
              (msg.tag == q.tag || msg.tag == -1 || q.tag == -1)
    ensures forall j :: 0 <= j < k ==>
              var q := s[j].msg;
              !(q.epoch >= epoch && msg.comm == q.comm &&
                (msg.rank == q.rank || msg.rank == -1 || q.rank == -1) &&
                (msg.tag == q.tag || msg.tag == -1 || q.tag == -1))
  {
  }

  /** `fdmi_get_matched_query` and `fdmi_get_matched_query2`: the first query of
      the queue that is not of an old epoch and agrees in communicator, rank and
      tag, where -1 stands for any rank or tag. */
  method GetMatched(msg: Msg, queue: Queue.Queue<Query>, epoch: int) returns (found: Option<Query>, ghost k: nat)
    requires queue.Valid()
    modifies queue`ite
    ensures queue.Valid() && k <= |queue.nodes|
    ensures found == if k < |queue.contents| then Some(queue.contents[k]) else None
    ensures found.Some? ==>
              var q := found.value.msg;
              q.epoch >= epoch && msg.comm == q.comm &&
              (msg.rank == q.rank || msg.rank == -1 || q.rank == -1) &&
              (msg.tag == q.tag || msg.tag == -1 || q.tag == -1)
    ensures forall j :: 0 <= j < k ==>
              var q := queue.contents[j].msg;
              !(q.epoch >= epoch && msg.comm == q.comm &&
                (msg.rank == q.rank || msg.rank == -1 || q.rank == -1) &&
                (msg.tag == q.tag || msg.tag == -1 || q.tag == -1))
  {
    hide IsMatched, Queue.Queue.Valid;
    k := 0;
    queue.SameLength();
    found := queue.Iterate(Queue.Head, 0);
    while found.Some?
      invariant queue.Valid() && k <= |queue.nodes|
      invariant found == if k < |queue.nodes| then Some(queue.contents[k]) else None
      invariant k < |queue.nodes| ==> queue.ite == queue.NodeAt(k + 1)
      invariant forall j :: 0 <= j < k ==> !IsMatched(msg, queue.contents[j].msg, epoch)
      decreases |queue.nodes| - k
    {
      if IsMatched(msg, found.value.msg, epoch) {
        break;
      }
      k := k + 1;
      found := queue.Iterate(Queue.Next, k);
    }
    SearchIs(msg, queue.contents, epoch, k);
  }

  lemma ProbedIs(source: int, tag: int, comm: int, s: seq<Query>, epoch: int, k: nat)
    requires k <= |s| && (k < |s| ==> Probes(source, tag, comm, s[k].msg, epoch))
    requires forall j :: 0 <= j < k ==> !Probes(source, tag, comm, s[j].msg, epoch)
    ensures k < |s| ==>
              var m := s[k].msg;
              m.comm == comm && m.epoch >= epoch && (source == -1 || m.rank == source) && (tag == -1 || m.tag == tag)
    ensures forall j :: 0 <= j < k ==>
              var m := s[j].msg;
              !(m.comm == comm && m.epoch >= epoch &&
                (source == -1 || m.rank == source) && (tag == -1 || m.tag == tag))
  {
  }

  /** The loop of `fdmi_verbs_iprobe`: the first message of the communicator
      that is not of an old epoch and has the rank and the tag asked for. */
  method FirstProbed(queue: Queue.Queue<Query>, source: int, tag: int, comm: int, epoch: int)
    returns (flag: bool, rank: int, msgTag: int, ghost k: nat)
    requires queue.Valid()
    modifies queue`ite
    ensures queue.Valid() && k <= |queue.nodes| && flag == (k < |queue.nodes|)
    ensures flag ==>
              var m := queue.contents[k].msg;
              m.comm == comm && m.epoch >= epoch && m.rank == rank && m.tag == msgTag &&
              (source == -1 || rank == source) && (tag == -1 || msgTag == tag)
    ensures forall j :: 0 <= j < k ==>
              var m := queue.contents[j].msg;
              !(m.comm == comm && m.epoch >= epoch &&
                (source == -1 || m.rank == source) && (tag == -1 || m.tag == tag))
  {
    hide Probes, Queue.Queue.Valid;
    queue.SameLength();
    flag, rank, msgTag, k := false, 0, 0, 0;
    var query := queue.Iterate(Queue.Head, 0);
    while query.Some?
      invariant queue.Valid() && k <= |queue.nodes| && !flag
      invariant query == if k < |queue.nodes| then Some(queue.contents[k]) else None
      invariant k < |queue.nodes| ==> queue.ite == queue.NodeAt(k + 1)
      invariant forall j :: 0 <= j < k ==> !Probes(source, tag, comm, queue.contents[j].msg, epoch)
      decreases |queue.nodes| - k
    {
      if Probes(source, tag, comm, query.value.msg, epoch) {
        flag, rank, msgTag := true, query.value.msg.rank, query.value.msg.tag;
        break;
      }
      k := k + 1;
      query := queue.Iterate(Queue.Next, k);
    }
    ProbedIs(source, tag, comm, queue.contents, epoch, k);
  }

  lemma {:induction false} NamedKept(events: seq<Event>, s: seq<Query>, names: seq<nat>, epoch: int, posted: bool)
    requires Named(events, s, names, epoch, posted)
    ensures Named(events, Kept(s), Keep(events, names), epoch, posted)
    decreases |s|
  {
    if s != [] {
      var n := |s| - 1;
      NamedKept(events, s[..n], names[..n], epoch, posted);
    }
  }

  lemma NamedWithout(events: seq<Event>, s: seq<Query>, names: seq<nat>, epoch: int, posted: bool, k: nat)
    requires Named(events, s, names, epoch, posted) && k < |s|
    ensures Named(events, Without(s, k), Without(names, k), epoch, posted)
  {
  }

  /** What the search in a queue finds is what the model's search finds, and
      it is where removal will look for it. */
  lemma FoundIs(events: seq<Event>, s: seq<Query>, names: seq<nat>, epoch: int, posted: bool, a: nat, k: nat)
    requires Named(events, s, names, epoch, posted) && Increasing(names) && k <= |s|
    requires k < |s| ==>
               var m, q := MsgOf(events, a), s[k].msg;
               q.epoch >= epoch && m.comm == q.comm &&
               (m.rank == q.rank || m.rank == -1 || q.rank == -1) &&
               (m.tag == q.tag || m.tag == -1 || q.tag == -1)
    requires forall j :: 0 <= j < k ==>
               var m, q := MsgOf(events, a), s[j].msg;
               !(q.epoch >= epoch && m.comm == q.comm &&
                 (m.rank == q.rank || m.rank == -1 || q.rank == -1) &&
                 (m.tag == q.tag || m.tag == -1 || q.tag == -1))
    ensures |s| == |names| && FirstFor(events, a, names, epoch, posted) == k
    ensures k < |s| ==> Queue.FirstIndex(s, s[k]) == k
  {
    hide IsMatched;
    forall j | 0 <= j < |s| {
      IsMatchedIs(MsgOf(events, a), s[j].msg, epoch);
    }
    forall j | 0 <= j < |s|
      ensures Matches(events, a, names[j], epoch, posted) <==> IsMatched(MsgOf(events, a), s[j].msg, epoch)
    {
    }
    FirstForIs(events, a, names, epoch, posted, k);
    if k < |s| {
      NamedDifferent(events, s, names, epoch, posted);
      Queue.FirstIndexIs(s, s[k], k);
    }
  }

  /** No query waits in a queue that is of an old epoch: receives are stamped
      when they start to wait, and an old message does not wait. */
  lemma Current(events: seq<Event>, t: nat, s: State, epoch: int, queue: seq<Query>, posted: bool)
    requires Inv(events, t, s, epoch) && Named(events, queue, if posted then s.pq else s.aq, epoch, posted)
    ensures forall q :: q in queue ==> q.msg.epoch >= epoch
  {
    hide Increasing, Compatible;
    forall j | 0 <= j < |queue| ensures queue[j].msg.epoch >= epoch {
      if !posted {
        assert s.aq[j] in s.aq;
      }
    }
  }

  class QueryPair {
    const aq: Queue.Queue<Query>
    const pq: Queue.Queue<Query>
    const free: Queue.Queue<Query>

    constructor ()
      ensures fresh(this) && fresh(aq) && fresh(pq) && fresh(free) && Valid() && Holds([], EMPTY, 0)
      ensures aq.nodes == pq.nodes == free.nodes == []
    {
      aq := new Queue.Queue<Query>();
      pq := new Queue.Queue<Query>();
      free := new Queue.Queue<Query>();
    }

    ghost predicate Valid()
      reads aq, pq, free, aq.nodes, pq.nodes, free.nodes
    {
      aq.Valid() && pq.Valid() && free.Valid() && Apart(aq, pq) && Apart(aq, free) && Apart(pq, free)
    }

    /** The queues hold what the model's state says. */
    ghost predicate Holds(events: seq<Event>, s: State, epoch: int)
      reads aq, pq
    {
      Named(events, aq.contents, s.aq, epoch, false) && Named(events, pq.contents, s.pq, epoch, true)
    }

    /** `fdmi_on_recv_cq_wc_recv`: a message has arrived. */
    method OnRecv(query: Query, failing: bool, epoch: int, ghost events: seq<Event>, ghost s: State)
      returns (matched: Option<Query>)
      requires Valid() && Holds(events, s, epoch)
      requires query.name < |events| && events[query.name] == Arrive(query.msg, failing)
      requires Inv(events, query.name, s, epoch)
      modifies aq, pq, aq.nodes, pq.nodes
      ensures Valid() && Holds(events, Step(events, query.name, s, epoch), epoch)
      ensures var k := FirstFor(events, query.name, s.pq, epoch, true);
              k <= |old(pq.contents)| &&
              matched == (if k < |old(pq.contents)| then Some(old(pq.contents)[k]) else None) &&
              (matched.Some? ==>
                var m, q := query.msg, matched.value.msg;
                m.comm == q.comm &&
                (m.rank == q.rank || m.rank == -1 || q.rank == -1) &&
                (m.tag == q.tag || m.tag == -1 || q.tag == -1)) &&
              forall j :: 0 <= j < k ==>
                var m, q := query.msg, old(pq.contents)[j].msg;
                !(m.comm == q.comm &&
                  (m.rank == q.rank || m.rank == -1 || q.rank == -1) &&
                  (m.tag == q.tag || m.tag == -1 || q.tag == -1))
    {
      hide Without, Queue.FirstIndex, Queue.Queue.Valid, Named, FirstFor, Matches, IsMatched, Increasing, Compatible;
      matched := None;
      if !Filtered(query.msg, failing) {
        ghost var k;
        matched, k := GetMatched(query.msg, pq, epoch);
        pq.SameLength();
        Current(events, query.name, s, epoch, pq.contents, true);
        FoundIs(events, pq.contents, s.pq, epoch, true, query.name, k);
        if matched.Some? {
          NamedWithout(events, pq.contents, s.pq, epoch, true, k);
          pq.Remove(matched.value);
        } else if query.msg.epoch >= epoch {
          NamedAppend(events, aq.contents, s.aq, epoch, false, query);
          aq.Enq(query);
        }
      }
    }

    /** `fdmi_post_recv_msg_param`: a receive is posted, and is stamped with the
        epoch if it has to wait. */
    method PostRecv(query: Query, epoch: int, ghost events: seq<Event>, ghost s: State)
      returns (matched: Option<Query>)
      requires Valid() && Holds(events, s, epoch)
      requires query.name < |events| && events[query.name] == Post(query.msg)
      requires Inv(events, query.name, s, epoch)
      modifies aq, pq, aq.nodes, pq.nodes
      ensures Valid() && Holds(events, Step(events, query.name, s, epoch), epoch)
      ensures var k := FirstFor(events, query.name, s.aq, epoch, false);
              k <= |old(aq.contents)| &&
              matched == (if k < |old(aq.contents)| then Some(old(aq.contents)[k]) else None) &&
              (matched.Some? ==>
                var m, q := query.msg, matched.value.msg;
                m.comm == q.comm &&
                (m.rank == q.rank || m.rank == -1 || q.rank == -1) &&
                (m.tag == q.tag || m.tag == -1 || q.tag == -1)) &&
              forall j :: 0 <= j < k ==>
                var m, q := query.msg, old(aq.contents)[j].msg;
                !(m.comm == q.comm &&
                  (m.rank == q.rank || m.rank == -1 || q.rank == -1) &&
                  (m.tag == q.tag || m.tag == -1 || q.tag == -1))
    {
      hide Without, Queue.FirstIndex, Queue.Queue.Valid, Named, FirstFor, Matches, IsMatched, Increasing, Compatible;
      ghost var k;
      matched, k := GetMatched(query.msg, aq, epoch);
      aq.SameLength();
      Current(events, query.name, s, epoch, aq.contents, false);
      FoundIs(events, aq.contents, s.aq, epoch, false, query.name, k);
      if matched.Some? {
        NamedWithout(events, aq.contents, s.aq, epoch, false, k);
        aq.Remove(matched.value);
      } else {
        var passive := query.(msg := query.msg.(epoch := epoch));
        NamedAppend(events, pq.contents, s.pq, epoch, true, passive);
        pq.Enq(passive);
      }
    }

    /** `fdmi_verbs_iprobe`: report the rank and tag of the first waiting message
        that has what was asked for, if there is one. No queue changes. */
    method IProbe(source: int, tag: int, comm: int, epoch: int, ghost events: seq<Event>, ghost s: State)
      returns (flag: bool, rank: int, msgTag: int)
      requires Valid() && Holds(events, s, epoch)
      modifies aq`ite
      ensures Valid() && Holds(events, s, epoch)
      ensures var k := Probe(events, source, tag, comm, s.aq, epoch);
              k <= |aq.contents| && flag == (k < |aq.contents|) &&
              (flag ==>
                var m := aq.contents[k].msg;
                m.comm == comm && m.epoch >= epoch && m.rank == rank && m.tag == msgTag &&
                (source == -1 || rank == source) && (tag == -1 || msgTag == tag)) &&
              forall j :: 0 <= j < k ==>
                var m := aq.contents[j].msg;
                !(m.comm == comm && m.epoch >= epoch &&
                  (source == -1 || m.rank == source) && (tag == -1 || m.tag == tag))
      ensures aq.contents == old(aq.contents)
    {
      hide Probes, Probe, Named, Queue.Queue.Valid;
      ghost var k;
      aq.SameLength();
      flag, rank, msgTag, k := FirstProbed(aq, source, tag, comm, epoch);
      ProbeIs(events, aq.contents, s.aq, source, tag, comm, epoch, k);
    }

    /** `fdmi_flush_query_qp`: what need not be preserved moves to the free
        queue, and nothing else does. */
    method Flush(epoch: int, ghost t: nat, ghost events: seq<Event>, ghost s: State)
      requires Valid() && Holds(events, s, epoch)
      requires t < |events| && events[t].Flush? && Inv(events, t, s, epoch)
      modifies aq, pq, free, aq.nodes, pq.nodes, free.nodes
      ensures Valid() && Holds(events, Step(events, t, s, epoch), epoch)
      ensures aq.contents == Kept(old(aq.contents)) && pq.contents == Kept(old(pq.contents))
      ensures free.contents == old(free.contents) + Dropped(old(aq.contents)) + Dropped(old(pq.contents))
    {
      hide Queue.Queue.Valid, Named, Increasing, Keep, Kept, Dropped, Compatible, Distinct;
      NamedDifferent(events, aq.contents, s.aq, epoch, false);
      NamedDifferent(events, pq.contents, s.pq, epoch, true);
      NamedKept(events, aq.contents, s.aq, epoch, false);
      NamedKept(events, pq.contents, s.pq, epoch, true);
      FlushQueue(aq, free);
      assert forall j :: 0 <= j < |aq.nodes| ==> aq.nodes[j] in old(aq.nodes);
      assert forall j :: 0 <= j < |free.nodes| ==> free.nodes[j] in old(free.nodes) || fresh(free.nodes[j]);
      FlushQueue(pq, free);
      assert forall j :: 0 <= j < |pq.nodes| ==> pq.nodes[j] in old(pq.nodes);
      assert forall j :: 0 <= j < |free.nodes| ==> free.nodes[j] in old(free.nodes) || fresh(free.nodes[j]);
      assert Apart(aq, pq);
      assert Apart(aq, free);
    }
  }

  lemma ProbeIs(events: seq<Event>, s: seq<Query>, names: seq<nat>, source: int, tag: int, comm: int, epoch: int, k: nat)
    requires Named(events, s, names, epoch, false) && k <= |s|
    requires k < |s| ==>
               var m := s[k].msg;
               m.comm == comm && m.epoch >= epoch &&
               (source == -1 || m.rank == source) && (tag == -1 || m.tag == tag)
    requires forall j :: 0 <= j < k ==>
               var m := s[j].msg;
               !(m.comm == comm && m.epoch >= epoch &&
                 (source == -1 || m.rank == source) && (tag == -1 || m.tag == tag))
    ensures |s| == |names| && Probe(events, source, tag, comm, names, epoch) == k
    ensures k < |s| ==> s[k].msg == MsgOf(events, names[k])
  {
    hide Probes;
    forall j | 0 <= j < |s| {
      ProbesIs(source, tag, comm, s[j].msg, epoch);
    }
  }

  lemma NamedAppend(events: seq<Event>, s: seq<Query>, names: seq<nat>, epoch: int, posted: bool, q: Query)
    requires Named(events, s, names, epoch, posted)
    requires q.msg == if posted then MsgOf(events, q.name).(epoch := epoch) else MsgOf(events, q.name)
    ensures Named(events, s + [q], names + [q.name], epoch, posted)
  {
  }
}
