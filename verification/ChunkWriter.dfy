/** Writing through the I/O server, `examples/ibio_server.c` and
    `examples/ibio_client.c`: a client sends each write in chunks, the server
    receives them into its cache and starts a detached thread for each, and
    these threads append to the file in whatever order they get the mutex. */
module ChunkWriter {
  import opened Basics

  const CHUNK: nat := 0x400_0000

  const BUF_SIZE: nat := 0x4000_0000

  // ---- Data ----

  datatype Msg = Begin(count: nat) | Chunk(bytes: seq<bv8>)

  datatype ClientPhase = Starting | Sending | Waiting | Finished

  /** The client is at write `index` and has sent `sent` bytes of it. */
  datatype Client = Client(phase: ClientPhase, index: nat, sent: nat)

  datatype ServerPhase = Polling | Launching | Checking | Replying

  datatype Server = Server(phase: ServerPhase, writeCount: nat, recvSize: nat, writtenCount: nat, cache: seq<bv8>)

  /** The thread in the critical section: it has clipped its chunk, written it,
      or added it to the count. */
  datatype Holder = Free | Clipped(size: nat) | Wrote(size: nat) | Bumped

  /** `pending` threads have been started and wait for the mutex. */
  datatype State = State(client: Client, channel: seq<Msg>, server: Server, pending: nat, holder: Holder,
                         file: seq<bv8>, reply: bool)

  /** The writes that the client makes; each fits the server's cache. */
  predicate Sound(writes: seq<seq<bv8>>) {
    forall i :: 0 <= i < |writes| ==> |writes[i]| <= BUF_SIZE
  }

  function Initial(cache: seq<bv8>): State {
    State(Client(Starting, 0, 0), [], Server(Polling, 0, 0, 0, cache), 0, Free, [], false)
  }

  /** The size of the chunk at `at`, of `count` bytes in all. */
  function Clip(at: nat, count: nat): nat {
    if at + CHUNK > count then (if at <= count then count - at else 0) else CHUNK
  }

  // ---- Steps ----

  datatype Step = SendBegin | SendChunk | SendDone | GetReply
    | RecvBegin | RecvChunk | Launch | Check | Reply
    | Lock | Write | Bump | Unlock

  predicate ClientCan(writes: seq<seq<bv8>>, s: State, step: Step) {
    var c := s.client;
    match step
    case SendBegin => c.phase == Starting && c.index < |writes|
    case SendChunk => c.phase == Sending && c.index < |writes| && c.sent < |writes[c.index]|
    case SendDone => c.phase == Sending && c.index < |writes| && c.sent >= |writes[c.index]|
    case GetReply => c.phase == Waiting && s.reply
    case _ => false
  }

  function ClientStep(writes: seq<seq<bv8>>, s: State, step: Step): State
    requires ClientCan(writes, s, step)
  {
    var c := s.client;
    match step
    case SendBegin =>
      s.(client := Client(Sending, c.index, 0), channel := s.channel + [Begin(|writes[c.index]|)])
    case SendChunk =>
      var size := Clip(c.sent, |writes[c.index]|);
      s.(client := c.(sent := c.sent + size),
         channel := s.channel + [Chunk(writes[c.index][c.sent..c.sent + size])])
    case SendDone => s.(client := c.(phase := Waiting))
    case GetReply =>
      s.(reply := false, client := Client(if c.index + 1 < |writes| then Starting else Finished, c.index + 1, 0))
  }

  /** Bytes stored at a place in the cache; false room would be an overrun. */
  predicate Fits(cache: seq<bv8>, at: nat, bytes: seq<bv8>) {
    at + |bytes| <= |cache|
  }

  function Store(cache: seq<bv8>, at: nat, bytes: seq<bv8>): seq<bv8>
    requires Fits(cache, at, bytes)
  {
    cache[..at] + bytes + cache[at + |bytes|..]
  }

  predicate ServerCan(s: State, step: Step) {
    var v := s.server;
    match step
    case RecvBegin => v.phase == Polling && s.channel != [] && s.channel[0].Begin?
    case RecvChunk => v.phase == Polling && s.channel != [] && s.channel[0].Chunk? && Fits(v.cache, v.recvSize, s.channel[0].bytes)
    case Launch => v.phase == Launching
    case Check => v.phase == Checking
    case Reply => v.phase == Replying && v.writtenCount == v.writeCount
    case _ => false
  }

  /** A message longer than the receive is cut; the size added is the receive's. */
  function ServerStep(s: State, step: Step): State
    requires ServerCan(s, step)
  {
    var v := s.server;
    match step
    case RecvBegin =>
      s.(channel := s.channel[1..], server := v.(writeCount := s.channel[0].count, recvSize := 0, writtenCount := 0))
    case RecvChunk =>
      var size := Clip(v.recvSize, v.writeCount);
      var bytes := s.channel[0].bytes;
      var got := if |bytes| <= size then bytes else bytes[..size];
      s.(channel := s.channel[1..],
         server := v.(cache := Store(v.cache, v.recvSize, got), recvSize := v.recvSize + size, phase := Launching))
    case Launch => s.(pending := s.pending + 1, server := v.(phase := Checking))
    case Check => s.(server := v.(phase := if v.recvSize == v.writeCount then Replying else Polling))
    case Reply => s.(reply := true, server := v.(phase := Polling))
  }

  predicate ThreadCan(s: State, step: Step) {
    match step
    case Lock => s.pending > 0 && s.holder == Free
    case Write => s.holder.Clipped? && s.server.writtenCount + s.holder.size <= |s.server.cache|
    case Bump => s.holder.Wrote?
    case Unlock => s.holder == Bumped
    case _ => false
  }

  function ThreadStep(s: State, step: Step): State
    requires ThreadCan(s, step)
  {
    var v := s.server;
    match step
    case Lock => s.(pending := s.pending - 1, holder := Clipped(Clip(v.writtenCount, v.writeCount)))
    case Write =>
      s.(file := s.file + v.cache[v.writtenCount..v.writtenCount + s.holder.size], holder := Wrote(s.holder.size))
    case Bump => s.(server := v.(writtenCount := v.writtenCount + s.holder.size), holder := Bumped)
    case Unlock => s.(holder := Free)
  }

  predicate Can(writes: seq<seq<bv8>>, s: State, step: Step) {
    ClientCan(writes, s, step) || ServerCan(s, step) || ThreadCan(s, step)
  }

  function Next(writes: seq<seq<bv8>>, s: State, step: Step): State
    requires Can(writes, s, step)
  {
    if ClientCan(writes, s, step) then ClientStep(writes, s, step)
    else if ServerCan(s, step) then ServerStep(s, step)
    else ThreadStep(s, step)
  }

  ghost predicate Goes(writes: seq<seq<bv8>>, s: State, s': State) {
    exists step :: Can(writes, s, step) && s' == Next(writes, s, step)
  }

  ghost predicate IsRun(writes: seq<seq<bv8>>, cache: seq<bv8>, run: seq<State>) {
    |run| > 0 && run[0] == Initial(cache) && |cache| == BUF_SIZE &&
    forall i :: 0 <= i < |run| - 1 ==> Goes(writes, run[i], run[i + 1])
  }

  // ---- What holds in every reachable state ----

  function Concat(writes: seq<seq<bv8>>, i: nat): seq<bv8>
    requires i <= |writes|
  {
    if i == 0 then [] else Concat(writes, i - 1) + writes[i - 1]
  }

  /** `at` is the start of a chunk, or the end. */
  predicate Aligned(at: nat, count: nat) {
    at <= count && (at % CHUNK == 0 || at == count)
  }

  /** The number of chunks up to an aligned position. */
  function Num(at: nat): nat {
    (at + CHUNK - 1) / CHUNK
  }

  /** The chunks of a write from one position to another. */
  function Chunks(w: seq<bv8>, from: nat, to: nat): seq<Msg>
    requires from <= to <= |w|
    decreases if from <= to then to - from else 0
  {
    if from >= to then []
    else
      var size := Clip(from, |w|);
      if from + size > to then [] else [Chunk(w[from..from + size])] + Chunks(w, from + size, to)
  }

  /** The bytes of the current write that are in the file. */
  function InFile(s: State): nat {
    s.server.writtenCount + if s.holder.Wrote? then s.holder.size else 0
  }

  /** Before the server has the client's count, nothing is under way; after it,
      every chunk is in the channel, or in the cache with a thread still to come,
      or in the file. */
  ghost predicate Inv(writes: seq<seq<bv8>>, s: State) {
    var c, v, i := s.client, s.server, s.client.index;
    Sound(writes) && |v.cache| == BUF_SIZE && i <= |writes| &&
    (forall j :: 0 <= j < i ==> writes[j] != []) &&
    (c.phase == Finished ==> i == |writes|) &&
    (c.phase == Sending || c.phase == Waiting ==> i < |writes|) &&
    match c.phase
    case Starting => Quiet(s) && s.channel == [] && !s.reply && s.file == Concat(writes, i)
    case Finished => Quiet(s) && s.channel == [] && !s.reply && s.file == Concat(writes, i)
    case _ =>
      var w := writes[i];
      Aligned(c.sent, |w|) && c.sent <= |w| && (c.phase == Waiting ==> c.sent == |w|) &&
      if s.channel != [] && s.channel[0].Begin? then
        Quiet(s) && !s.reply && s.channel == [Begin(|w|)] + Chunks(w, 0, c.sent) && s.file == Concat(writes, i)
      else
        v.writeCount == |w| && Aligned(v.recvSize, |w|) && Aligned(v.writtenCount, |w|) &&
        v.writtenCount <= v.recvSize <= c.sent &&
        s.channel == Chunks(w, v.recvSize, c.sent) &&
        v.cache[..v.recvSize] == w[..v.recvSize] &&
        (s.holder.Clipped? || s.holder.Wrote? ==> s.holder.size == Clip(v.writtenCount, |w|) > 0) &&
        Num(v.recvSize) - Num(v.writtenCount) ==
          s.pending + If(s.holder.Clipped? || s.holder.Wrote?) + If(v.phase == Launching) &&
        s.file == Concat(writes, i) + w[..InFile(s)] &&
        (v.phase != Polling ==> v.recvSize > 0 && !s.reply) &&
        (v.phase == Replying ==> v.recvSize == |w|) &&
        (s.reply ==> 0 < v.recvSize && v.writtenCount == |w|) &&
        (v.phase == Polling && v.recvSize == |w| && |w| > 0 ==> s.reply)
  }

  /** No thread of the previous write will touch the counters any more. */
  predicate Quiet(s: State) {
    s.pending == 0 && (s.holder == Free || s.holder == Bumped) && s.server.phase == Polling
  }

  // ---- Chunks ----

  lemma ClipFacts(at: nat, count: nat)
    requires Aligned(at, count)
    ensures at < count ==> Clip(at, count) > 0
    ensures Aligned(at + Clip(at, count), count)
    ensures at < count ==> Num(at + Clip(at, count)) == Num(at) + 1
  {
  }

  lemma NumFacts(at: nat, to: nat, count: nat)
    requires Aligned(at, count) && Aligned(to, count) && at <= to
    ensures Num(at) <= Num(to)
    ensures Num(at) == Num(to) <==> at == to
    ensures at < to ==> at + Clip(at, count) <= to
  {
  }

  /** One more chunk is sent. */
  lemma {:induction false} ChunksExtend(w: seq<bv8>, from: nat, to: nat)
    requires Aligned(from, |w|) && Aligned(to, |w|) && from <= to < |w|
    ensures var next := to + Clip(to, |w|);
            next <= |w| && Chunks(w, from, next) == Chunks(w, from, to) + [Chunk(w[to..next])]
    decreases if from <= to then to - from else 0
  {
    hide Aligned, Num;
    ClipFacts(from, |w|);
    ClipFacts(to, |w|);
    NumFacts(from, to, |w|);
    var next := to + Clip(to, |w|);
    if from < to {
      NumFacts(from, to, |w|);
      ChunksExtend(w, from + Clip(from, |w|), to);
      ChunksFirst(w, from, to);
      NumFacts(from, next, |w|);
      ChunksFirst(w, from, next);
    } else {
      assert Chunks(w, next, next) == [];
    }
  }

  /** The first chunk in the channel is the one the server is ready for. */
  lemma ChunksFirst(w: seq<bv8>, from: nat, to: nat)
    requires Aligned(from, |w|) && Aligned(to, |w|) && from <= to
    ensures Chunks(w, from, to) == [] <==> from == to
    ensures from < to ==> var next := from + Clip(from, |w|);
      from < next <= to && Chunks(w, from, to) == [Chunk(w[from..next])] + Chunks(w, next, to)
  {
    hide Aligned, Num;
    ClipFacts(from, |w|);
    NumFacts(from, to, |w|);
  }

  // ---- Every step keeps the invariant ----

  lemma InitialInv(writes: seq<seq<bv8>>, cache: seq<bv8>)
    requires Sound(writes) && |cache| == BUF_SIZE
    ensures Inv(writes, Initial(cache))
  {
  }

  lemma SendInv(writes: seq<seq<bv8>>, s: State)
    requires Inv(writes, s) && ClientCan(writes, s, SendChunk)
    ensures Inv(writes, ClientStep(writes, s, SendChunk))
  {
    hide Clip, Num, Chunks, Concat, Aligned;
    var w := writes[s.client.index];
    ClipFacts(s.client.sent, |w|);
    Start(|w|);
    if s.channel != [] && s.channel[0].Begin? {
      ChunksExtend(w, 0, s.client.sent);
    } else {
      ChunksExtend(w, s.server.recvSize, s.client.sent);
    }
  }

  lemma GetReplyInv(writes: seq<seq<bv8>>, s: State)
    requires Inv(writes, s) && ClientCan(writes, s, GetReply)
    ensures Inv(writes, ClientStep(writes, s, GetReply))
  {
    hide Clip, Num;
    var w := writes[s.client.index];
    assert w[..|w|] == w;
    NumFacts(s.server.writtenCount, s.server.recvSize, |w|);
  }

  lemma ClientInv(writes: seq<seq<bv8>>, s: State, step: Step)
    requires Inv(writes, s) && ClientCan(writes, s, step)
    ensures Inv(writes, ClientStep(writes, s, step))
  {
    hide Clip, Num, Concat, Aligned;
    match step
    case SendBegin =>
      assert Chunks(writes[s.client.index], 0, 0) == [];
      Start(|writes[s.client.index]|);
    case SendChunk => SendInv(writes, s);
    case SendDone => AtEnd(writes, s);
    case GetReply => GetReplyInv(writes, s);
  }

  lemma AtEnd(writes: seq<seq<bv8>>, s: State)
    requires Inv(writes, s) && ClientCan(writes, s, SendDone)
    ensures s.client.sent == |writes[s.client.index]|
  {
  }

  /** Storing the bytes that come next extends what is held. */
  lemma StoreNext(cache: seq<bv8>, w: seq<bv8>, at: nat, next: nat)
    requires at <= next <= |w| && next <= |cache| && cache[..at] == w[..at]
    ensures Fits(cache, at, w[at..next])
    ensures var c := Store(cache, at, w[at..next]); |c| == |cache| && c[..next] == w[..next]
  {
    var c := Store(cache, at, w[at..next]);
    assert c[..next] == cache[..at] + w[at..next] == w[..next];
  }

  /** What the server receives is exactly what it is ready for. */
  lemma ChunkReceived(writes: seq<seq<bv8>>, s: State)
    requires Inv(writes, s) && s.channel != [] && s.channel[0].Chunk? && s.server.phase == Polling
    ensures s.client.index < |writes|
    ensures var w, v := writes[s.client.index], s.server;
            var next := v.recvSize + Clip(v.recvSize, v.writeCount);
            v.writeCount == |w| && v.recvSize < next <= s.client.sent && s.channel[0].bytes == w[v.recvSize..next] &&
            s.channel[1..] == Chunks(w, next, s.client.sent) && Aligned(next, |w|) &&
            Num(next) == Num(v.recvSize) + 1 && Fits(v.cache, v.recvSize, s.channel[0].bytes)
  {
    hide Clip, Num, Aligned;
    var w, v := writes[s.client.index], s.server;
    ChunksFirst(w, v.recvSize, s.client.sent);
    ClipFacts(v.recvSize, |w|);
  }

  lemma RecvInv(writes: seq<seq<bv8>>, s: State)
    requires Inv(writes, s) && ServerCan(s, RecvChunk)
    ensures Inv(writes, ServerStep(s, RecvChunk))
  {
    hide Clip, Num, Aligned, Chunks, Concat, Store, Fits;
    var w, v := writes[s.client.index], s.server;
    var next := v.recvSize + Clip(v.recvSize, v.writeCount);
    ChunkReceived(writes, s);
    ChunksNoBegin(w, next, s.client.sent);
    StoreNext(v.cache, w, v.recvSize, next);
    assert w[v.recvSize..next] == s.channel[0].bytes;
  }

  lemma ChunksNoBegin(w: seq<bv8>, from: nat, to: nat)
    requires from <= to <= |w|
    ensures Chunks(w, from, to) != [] ==> Chunks(w, from, to)[0].Chunk?
  {
  }

  lemma ServerInv(writes: seq<seq<bv8>>, s: State, step: Step)
    requires Inv(writes, s) && ServerCan(s, step)
    ensures Inv(writes, ServerStep(s, step))
  {
    hide Clip, Num, Aligned, Chunks, Concat, Store, Fits;
    match step
    case RecvBegin =>
      var w := writes[s.client.index];
      assert s.channel[1..] == Chunks(w, 0, s.client.sent);
      ChunksNoBegin(w, 0, s.client.sent);
      Start(|w|);
    case RecvChunk => RecvInv(writes, s);
    case Launch =>
    case Check =>
    case Reply =>
  }

  lemma Start(count: nat)
    ensures Aligned(0, count) && Num(0) == 0
  {
  }

  /** A thread always has a chunk to write, and it has been received. */
  lemma ThreadHasWork(writes: seq<seq<bv8>>, s: State)
    requires Inv(writes, s) && (s.pending > 0 || s.holder.Clipped? || s.holder.Wrote?)
    ensures s.client.index < |writes| && s.server.writeCount == |writes[s.client.index]|
    ensures var v := s.server; var size := Clip(v.writtenCount, v.writeCount);
            0 < size && v.writtenCount + size <= v.recvSize && Aligned(v.writtenCount + size, v.writeCount) &&
            Num(v.writtenCount + size) == Num(v.writtenCount) + 1
  {
    hide Clip, Num, Aligned, Chunks, Concat;
    var w, v := writes[s.client.index], s.server;
    NumFacts(v.writtenCount, v.recvSize, |w|);
    ClipFacts(v.writtenCount, |w|);
  }

  lemma AppendNext(w: seq<bv8>, cache: seq<bv8>, recv: nat, at: nat, size: nat)
    requires at + size <= recv <= |w| && recv <= |cache| && cache[..recv] == w[..recv]
    ensures w[..at] + cache[at..at + size] == w[..at + size]
  {
    assert cache[at..at + size] == cache[..recv][at..at + size];
  }

  lemma ThreadInv(writes: seq<seq<bv8>>, s: State, step: Step)
    requires Inv(writes, s) && ThreadCan(s, step)
    ensures Inv(writes, ThreadStep(s, step))
  {
    hide Clip, Num, Aligned, Chunks, Concat;
    if !step.Unlock? {
      ThreadHasWork(writes, s);
    }
    if step.Write? {
      var w, v := writes[s.client.index], s.server;
      AppendNext(w, v.cache, v.recvSize, v.writtenCount, s.holder.size);
    }
  }

  lemma StepInv(writes: seq<seq<bv8>>, s: State, step: Step)
    requires Inv(writes, s) && Can(writes, s, step)
    ensures Inv(writes, Next(writes, s, step))
  {
    hide Inv, ClientCan, ServerCan, ThreadCan, ClientStep, ServerStep, ThreadStep;
    if ClientCan(writes, s, step) {
      ClientInv(writes, s, step);
    } else if ServerCan(s, step) {
      ServerInv(writes, s, step);
    } else {
      ThreadInv(writes, s, step);
    }
  }

  // ---- The run ends ----

  function Future(writes: seq<seq<bv8>>, i: nat): nat
    requires i <= |writes|
    decreases |writes| - i
  {
    if i == |writes| then 0 else 10 * Num(|writes[i]|) + 13 + Future(writes, i + 1)
  }

  function ClientLeft(writes: seq<seq<bv8>>, c: Client): int
    requires c.index <= |writes| && (c.phase == Sending || c.phase == Waiting ==> c.index < |writes|)
  {
    match c.phase
    case Starting => Future(writes, c.index)
    case Sending => Future(writes, c.index + 1) + 10 * (Num(|writes[c.index]|) - Num(c.sent)) + 2
    case Waiting => Future(writes, c.index + 1) + 1
    case Finished => 0
  }

  function ServerLeft(p: ServerPhase): nat {
    match p
    case Polling => 0
    case Replying => 1
    case Checking => 2
    case Launching => 8
  }

  function HolderLeft(h: Holder): nat {
    match h
    case Free => 0
    case Bumped => 1
    case Wrote(_) => 2
    case Clipped(_) => 3
  }

  /** A bound on the steps still to come. */
  ghost function Left(writes: seq<seq<bv8>>, s: State): int
    requires Inv(writes, s)
  {
    ClientLeft(writes, s.client) + 9 * |s.channel| + ServerLeft(s.server.phase) + 5 * s.pending + HolderLeft(s.holder)
  }

  lemma LeftPositive(writes: seq<seq<bv8>>, s: State)
    requires Inv(writes, s)
    ensures Left(writes, s) >= 0
  {
    hide Chunks, Concat, Clip, Future;
    if s.client.phase == Sending {
      NumFacts(s.client.sent, |writes[s.client.index]|, |writes[s.client.index]|);
    }
  }

  lemma StepDecreases(writes: seq<seq<bv8>>, s: State, step: Step)
    requires Inv(writes, s) && Can(writes, s, step) && Inv(writes, Next(writes, s, step))
    ensures Left(writes, Next(writes, s, step)) < Left(writes, s)
  {
    hide Inv, Clip, Store, Fits, Num;
    InvBounds(writes, s);
    if step.SendChunk? {
      ClipFacts(s.client.sent, |writes[s.client.index]|);
    }
    if step.SendBegin? {
      Start(0);
    }
  }

  lemma InvBounds(writes: seq<seq<bv8>>, s: State)
    requires Inv(writes, s)
    ensures s.client.index <= |writes|
    ensures s.client.phase == Sending || s.client.phase == Waiting ==>
              s.client.index < |writes| && Aligned(s.client.sent, |writes[s.client.index]|)
  {
  }

  // ---- Some step is possible, except after an empty write ----

  ghost predicate CanGo(writes: seq<seq<bv8>>, s: State) {
    exists step :: Can(writes, s, step)
  }

  lemma ThreadGoes(writes: seq<seq<bv8>>, s: State)
    requires Inv(writes, s) && (s.pending > 0 || s.holder != Free)
    ensures CanGo(writes, s)
  {
    hide Clip, Num, Chunks, Concat;
    if !(s.holder == Bumped) {
      ThreadHasWork(writes, s);
    }
    match s.holder
    case Free => assert Can(writes, s, Lock);
    case Clipped(_) => assert Can(writes, s, Write);
    case Wrote(_) => assert Can(writes, s, Bump);
    case Bumped => assert Can(writes, s, Unlock);
  }

  /** While the client waits for the reply to a write with data, somebody can go on. */
  lemma WaitingGoes(writes: seq<seq<bv8>>, s: State)
    requires Inv(writes, s) && s.client.phase == Waiting && writes[s.client.index] != []
    ensures CanGo(writes, s)
  {
    hide Clip, Num, Chunks, Concat, Fits;
    var w, v := writes[s.client.index], s.server;
    if s.reply {
      assert Can(writes, s, GetReply);
    } else if v.phase == Launching {
      assert Can(writes, s, Launch);
    } else if v.phase == Checking {
      assert Can(writes, s, Check);
    } else if s.pending > 0 || s.holder != Free {
      ThreadGoes(writes, s);
    } else if v.phase == Replying {
      NumFacts(v.writtenCount, v.recvSize, |w|);
      assert Can(writes, s, Reply);
    } else if s.channel != [] {
      if s.channel[0].Begin? {
        assert Can(writes, s, RecvBegin);
      } else {
        ChunkReceived(writes, s);
        assert Can(writes, s, RecvChunk);
      }
    } else {
      ChunksFirst(w, v.recvSize, s.client.sent);
    }
  }

  lemma SendingGoes(writes: seq<seq<bv8>>, s: State)
    requires Inv(writes, s) && (s.client.phase == Sending || (s.client.phase == Starting && s.client.index < |writes|))
    ensures CanGo(writes, s)
  {
    hide Clip, Num, Chunks, Fits, Concat;
    if s.client.phase == Starting {
      assert Can(writes, s, SendBegin);
    } else if s.client.sent < |writes[s.client.index]| {
      assert Can(writes, s, SendChunk);
    } else {
      assert Can(writes, s, SendDone);
    }
  }

  lemma ClientGoes(writes: seq<seq<bv8>>, s: State)
    requires Inv(writes, s) && !CanGo(writes, s)
    ensures s.client.index == |writes| || writes[s.client.index] == []
    ensures s.file == Concat(writes, s.client.index)
  {
    hide Clip, Num, Chunks, Fits, Concat;
    match s.client.phase
    case Starting =>
      if s.client.index < |writes| {
        SendingGoes(writes, s);
      }
    case Sending => SendingGoes(writes, s);
    case Waiting =>
      if writes[s.client.index] != [] {
        WaitingGoes(writes, s);
      }
    case Finished =>
  }

  // ---- Main results ----

  lemma {:induction false} RunInv(writes: seq<seq<bv8>>, cache: seq<bv8>, run: seq<State>, i: nat)
    requires Sound(writes) && IsRun(writes, cache, run) && i < |run|
    ensures Inv(writes, run[i]) && i + Left(writes, run[i]) <= Future(writes, 0)
    decreases i
  {
    hide Inv, Can, Next, Future, Sound;
    InitialInv(writes, cache);
    if i == 0 {
      assert Left(writes, Initial(cache)) == Future(writes, 0);
    } else {
      RunInv(writes, cache, run, i - 1);
      assert Goes(writes, run[i - 1], run[i - 1 + 1]);
      var step :| Can(writes, run[i - 1], step) && run[i] == Next(writes, run[i - 1], step);
      StepInv(writes, run[i - 1], step);
      StepDecreases(writes, run[i - 1], step);
    }
  }

  /** In whatever order the threads get the mutex: while a write is under way the
      file holds the earlier writes and then the first bytes of the cache, which
      are those of the write; the counters are in order. */
  lemma FileInOrder(writes: seq<seq<bv8>>, cache: seq<bv8>, run: seq<State>, i: nat)
    requires Sound(writes) && IsRun(writes, cache, run) && i < |run|
    requires run[i].client.phase == Sending || run[i].client.phase == Waiting
    requires run[i].server.recvSize > 0 && !(run[i].channel != [] && run[i].channel[0].Begin?)
    ensures var s, v := run[i], run[i].server;
            s.client.index < |writes| && v.writeCount == |writes[s.client.index]| &&
            v.writtenCount <= InFile(s) <= v.recvSize <= v.writeCount <= |v.cache| &&
            v.cache[..v.recvSize] == writes[s.client.index][..v.recvSize] &&
            s.file == Concat(writes, s.client.index) + v.cache[..InFile(s)]
  {
    hide Clip, Num, Chunks, IsRun, Concat;
    RunInv(writes, cache, run, i);
    var s, v := run[i], run[i].server;
    if s.holder.Wrote? {
      ThreadHasWork(writes, s);
    }
    assert v.cache[..v.recvSize][..InFile(s)] == v.cache[..InFile(s)];
    assert writes[s.client.index][..v.recvSize][..InFile(s)] == writes[s.client.index][..InFile(s)];
  }

  /** The reply is sent only once everything is in the file. */
  lemma ReplyMeansWritten(writes: seq<seq<bv8>>, cache: seq<bv8>, run: seq<State>, i: nat)
    requires Sound(writes) && IsRun(writes, cache, run) && i < |run| && run[i].reply
    ensures run[i].client.index < |writes| && run[i].file == Concat(writes, run[i].client.index + 1)
  {
    hide Clip, Chunks, IsRun;
    RunInv(writes, cache, run, i);
    var s := run[i];
    var w := writes[s.client.index];
    assert w[..|w|] == w;
    NumFacts(s.server.writtenCount, s.server.recvSize, |w|);
  }

  /** A run that can go no further has written everything if every write has
      data; otherwise it hangs at the first empty write, for which the server
      never replies. */
  lemma CompletedRun(writes: seq<seq<bv8>>, cache: seq<bv8>, run: seq<State>)
    requires Sound(writes) && IsRun(writes, cache, run) && !CanGo(writes, run[|run| - 1])
    ensures |run| <= Future(writes, 0) + 1
    ensures var s := run[|run| - 1];
            s.client.index <= |writes| && s.file == Concat(writes, s.client.index) &&
            (forall j :: 0 <= j < s.client.index ==> writes[j] != []) &&
            (s.client.index < |writes| ==> writes[s.client.index] == []) &&
            (s.client.index == |writes| <==> forall j :: 0 <= j < |writes| ==> writes[j] != [])
  {
    hide Chunks, Goes, Initial, CanGo, Clip, Num, Concat, Future, Left;
    var s := run[|run| - 1];
    RunInv(writes, cache, run, |run| - 1);
    LeftPositive(writes, s);
    ClientGoes(writes, s);
  }
}
