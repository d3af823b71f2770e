/** The concurrent compressor of `examples/pgz.c` as a state machine: the main
    thread, any number of compress threads and the write thread take turns in
    any order. A step is what a thread does between two accesses to shared
    state: the job lists under their locks, a pool or a use count, or the
    contents of a buffer that it claims. */
module Pipeline {
  import opened Basics
  import opened Splitter
  import opened Checks

  // ---- What is compressed ----

  /** `size` is that of an input buffer, of which there are `limit`; the scan of
      the main thread places the ends of the jobs at `ends` and finds the block
      lists in `jobs`. `deflate` is the compressor, and `trailer` builds the end
      of the stream from the lengths in and out, the check and the header's
      length. */
  datatype Config = Config(
    input: seq<bv8>, size: nat, jobs: seq<Job>, ends: seq<nat>,
    setdict: bool, procs: nat, limit: nat, zlib: bool, header: seq<bv8>,
    deflate: (Dict, seq<bv8>, Lens, bool) -> seq<bv8>,
    trailer: (nat, nat, Check, nat) -> seq<bv8>)

  /** The ends cut the input into jobs of a buffer at most, and a job is shorter
      than its buffer only if input follows it in another. */
  predicate Sound(c: Config) {
    |c.jobs| > 0 && c.procs > 0 && c.size > 0 && |c.ends| == |c.jobs| + 1 &&
    c.ends[0] == 0 && c.ends[|c.jobs|] == |c.input| &&
    forall k :: 0 <= k < |c.jobs| ==> SoundJob(c, k)
  }

  predicate SoundJob(c: Config, k: nat)
    requires k < |c.jobs| && |c.ends| == |c.jobs| + 1
  {
    c.ends[k] <= c.ends[k + 1] <= |c.input| && c.ends[k + 1] <= c.ends[k] + c.size &&
    (c.ends[k] < c.ends[k + 1] || |c.jobs| == 1) &&
    (c.jobs[k].more <==> k < |c.jobs| - 1) && c.jobs[k].data == c.input[c.ends[k]..c.ends[k + 1]] &&
    (SplitsAt(c, k) ==> Following(|c.input|, c.size, Plan(c, k)) > 0)
  }

  /** What is buffered before job `k`, when the jobs end where they do. */
  function Plan(c: Config, k: nat): Ahead {
    if k == 0 then Ahead(0, Min(c.size, |c.input|), 0)
    else if k < |c.ends| then After(|c.input|, c.size, Plan(c, k - 1), c.ends[k])
    else Ahead(|c.input|, 0, 0)
  }

  /** Job `k` does not use up its buffer. */
  predicate SplitsAt(c: Config, k: nat) {
    k + 1 < |c.ends| && Splits(Plan(c, k), c.ends[k + 1])
  }

  /** The last `n` bytes. */
  function Tail(d: seq<bv8>, n: nat): seq<bv8> {
    if |d| <= n then d else d[|d| - n..]
  }

  /** The dictionary that follows a job with dictionary `d` and input `data`. */
  function DictAfter(d: Dict, data: seq<bv8>): seq<bv8> {
    if |data| >= DICT || d.NoDict? then data else Tail(d.bytes, DICT - |data|) + data
  }

  function DictOf(c: Config, k: nat): Dict
    requires k <= |c.jobs|
  {
    if k == 0 || !c.setdict then NoDict else Dict(DictAfter(DictOf(c, k - 1), c.jobs[k - 1].data))
  }

  /** The dictionary as the compressor is given it. */
  function Used(d: Dict): Dict {
    if d.NoDict? then NoDict else Dict(Window(d.bytes))
  }

  /** What job `k` compresses to. */
  function Produced(c: Config, k: nat): seq<bv8>
    requires k < |c.jobs|
  {
    c.deflate(Used(DictOf(c, k)), c.jobs[k].data, c.jobs[k].lens, c.jobs[k].more)
  }

  // ---- State ----

  datatype Pool = Inputs | Outputs | Dicts

  /** A buffer; it is in its pool's free list when nobody uses it. */
  datatype Space = Space(pool: Pool, uses: nat, data: seq<bv8>)

  /** How far a compress thread has come with a job, and how far the writer. */
  datatype Compressing = Queued | Taken | Primed | Fitted | Deflated | Reserved | Inserted | Summed | Calculated
  datatype Writing = Unlisted | Listed | Popped | Counted | Written | Freed

  datatype Work = Work(inp: nat, more: bool, dict: Option<nat>, used: Dict, out: Option<nat>, check: Check,
                       compressing: Compressing, writing: Writing)

  /** Where the main thread is in its loop. */
  datatype Phase = First | Top | NeedNext | Cut | NeedRest | Offer | Put | Last | Joining | Done

  /** The bytes it has read and its buffers; `past` is the dictionary of the job
      being prepared. */
  datatype Main = Main(phase: Phase, offset: nat, curr: Option<nat>, next: Option<nat>, hold: Option<nat>,
                       dict: Option<nat>, past: Option<nat>)

  datatype WriterPhase = Starting | Running | Trailing | Ended

  datatype Writer = Writer(phase: WriterPhase, seqno: nat, len: nat, ulen: nat, clen: nat, check: Check,
                           output: seq<bv8>)

  /** `waiting` is the compress list and `have` its lock's value; `list` is the
      write list and `first` its lock's value; `limit` counts the input buffers
      that may still be made; `idle` compress threads wait for a job. */
  datatype State = State(spaces: seq<Space>, limit: nat, main: Main, works: seq<Work>,
                         waiting: seq<nat>, have: nat, list: seq<nat>, first: int,
                         threads: nat, idle: nat, writer: Writer)

  function Initial(c: Config): State {
    State([], c.limit, Main(First, 0, None, None, None, None, None), [], [], 0, [], -1, 0, 0,
          Writer(Starting, 0, 0, 0, 0, CheckOf(c.zlib, []), []))
  }

  /** `unsigned long` arithmetic. */
  const WORD := 0x1_0000_0000_0000_0000

  function Add(a: nat, b: nat): nat { (a + b) % WORD }

  // ---- Buffers ----

  function At(spaces: seq<Space>, id: nat): Space {
    if id < |spaces| then spaces[id] else Space(Inputs, 0, [])
  }

  function Set(spaces: seq<Space>, id: nat, space: Space): (r: seq<Space>)
    ensures |r| == if id == |spaces| then |spaces| + 1 else |spaces|
    ensures forall x: nat :: x != id ==> At(r, x) == At(spaces, x)
    ensures id <= |spaces| ==> At(r, id) == space
  {
    if id < |spaces| then spaces[id := space] else if id == |spaces| then spaces + [space] else spaces
  }

  function Use(spaces: seq<Space>, id: nat): seq<Space> {
    Set(spaces, id, At(spaces, id).(uses := At(spaces, id).uses + 1))
  }

  /** Dropping the last use puts the buffer back in the pool. */
  function Drop(spaces: seq<Space>, id: nat): seq<Space> {
    var n := At(spaces, id).uses;
    Set(spaces, id, At(spaces, id).(uses := if n == 0 then 0 else n - 1))
  }

  function Fill(spaces: seq<Space>, id: nat, data: seq<bv8>): seq<Space> {
    Set(spaces, id, At(spaces, id).(data := data))
  }

  function Hand(spaces: seq<Space>, id: nat, pool: Pool): seq<Space> {
    Set(spaces, id, Space(pool, 1, []))
  }

  predicate IsFree(spaces: seq<Space>, pool: Pool, id: nat) {
    id < |spaces| && spaces[id].pool == pool && spaces[id].uses == 0
  }

  /** `get_space` returns a free buffer, or makes one if there is none and it may. */
  predicate CanGet(s: State, pool: Pool, id: nat) {
    IsFree(s.spaces, pool, id) ||
    (id == |s.spaces| && (forall x :: 0 <= x < |s.spaces| ==> !IsFree(s.spaces, pool, x)) && (pool == Inputs ==> s.limit > 0))
  }

  /** One buffer fewer may be made if `id` is a new one. */
  function Limit(s: State, id: nat): nat {
    if id == |s.spaces| && s.limit > 0 then s.limit - 1 else s.limit
  }

  // ---- Lists ----

  /** Insert before the first larger element. */
  function Insert(list: seq<nat>, k: nat): seq<nat>
    decreases |list|
  {
    if list == [] || list[0] > k then [k] + list else [list[0]] + Insert(list[1..], k)
  }

  function FirstOf(list: seq<nat>): int {
    if list == [] then -1 else list[0]
  }

  // ---- Steps of the main thread ----

  datatype Step =
    | Get(id: nat) | Shift | CutOff | OfferDict(id: nat) | PutJob | DropNext | Join
    | Take | Prime(k: nat) | Fit(k: nat, id: nat) | Deflate(k: nat) | Reserve(k: nat) | InsertJob(k: nat)
    | Checksum(k: nat) | Calculate(k: nat)
    | Header | Pop | Count | Write | AddCheck | Trailer

  /** The contents of a buffer of the main thread. */
  function Contents(s: State, slot: Option<nat>): seq<bv8> {
    if slot.Some? then At(s.spaces, slot.value).data else []
  }

  /** There is more to compress after the job. */
  predicate More(s: State) {
    Contents(s, s.main.next) != []
  }

  /** The dictionary that follows has to be copied into a buffer of its own. */
  predicate Copies(c: Config, s: State) {
    More(s) && c.setdict && s.main.dict.Some? && |Contents(s, s.main.curr)| < DICT
  }

  predicate MainCan(c: Config, s: State, step: Step) {
    var m, k := s.main, |s.works|;
    match step
    case Get(id) => (m.phase.First? || m.phase.NeedNext? || (m.phase.NeedRest? && m.curr.Some? && k < |c.jobs|)) && CanGet(s, Inputs, id)
    case Shift => m.phase.Top?
    case CutOff => m.phase.Cut? && k < |c.jobs| && m.curr.Some? && m.next.Some?
    case OfferDict(id) => m.phase.Offer? && m.curr.Some? && (Copies(c, s) ==> CanGet(s, Dicts, id))
    case PutJob => m.phase.Put? && k < |c.jobs| && m.curr.Some?
    case DropNext => m.phase.Last? && m.next.Some?
    case Join => m.phase.Joining? && s.writer.phase.Ended?
    case _ => false
  }

  /** A buffer for `next`, filled from the input: at the start, or after `curr`
      has been taken from it. */
  function DoRead(c: Config, s: State, id: nat): State {
    var end := s.main.offset + Min(c.size, Minus(|c.input|, s.main.offset));
    var bytes := if s.main.offset <= |c.input| then c.input[s.main.offset..end] else [];
    s.(spaces := Fill(Hand(s.spaces, id, Inputs), id, bytes), limit := Limit(s, id),
       main := s.main.(next := Some(id), offset := end, phase := if s.main.phase.First? then Top else Cut))
  }

  /** A buffer for the rest of `curr` behind the job. */
  function DoSave(c: Config, s: State, id: nat): State
    requires s.main.curr.Some? && |s.works| < |c.jobs|
  {
    var data, len := Contents(s, s.main.curr), |c.jobs[|s.works|].data|;
    var saved := Fill(Hand(s.spaces, id, Inputs), id, if len <= |data| then data[len..] else []);
    s.(spaces := Fill(saved, s.main.curr.value, if len <= |data| then data[..len] else data), limit := Limit(s, id),
       main := s.main.(next := Some(id), phase := Offer))
  }

  function DoShift(s: State): State {
    s.(main := s.main.(curr := s.main.next, next := s.main.hold, hold := None,
                       phase := if s.main.hold.None? then NeedNext else Cut))
  }

  /** Cut the job off in place: `curr` is filled up from `next`, which moves down;
      or, if the job is shorter, `next` will wait behind the rest of `curr`. */
  function DoCut(c: Config, s: State): State
    requires MainCan(c, s, CutOff)
  {
    var curr, next, len := Contents(s, s.main.curr), Contents(s, s.main.next), |c.jobs[|s.works|].data|;
    if len < |curr| then s.(main := s.main.(next := None, hold := s.main.next, phase := NeedRest))
    else
      var n := Min(len - |curr|, |next|);
      s.(spaces := Fill(Fill(s.spaces, s.main.curr.value, curr + next[..n]), s.main.next.value, next[n..]),
         main := s.main.(phase := Offer))
  }

  /** Give the job its dictionary, and share `curr` as the next one or build it. */
  function DoOffer(c: Config, s: State, id: nat): State
    requires MainCan(c, s, OfferDict(id))
  {
    var m, curr := s.main, s.main.curr.value;
    if !(More(s) && c.setdict) then s.(main := m.(past := m.dict, dict := None, phase := Put))
    else if !Copies(c, s) then
      s.(spaces := Use(s.spaces, curr), main := m.(past := m.dict, dict := Some(curr), phase := Put))
    else
      var data := Contents(s, m.curr);
      var built := Tail(Contents(s, m.dict), DICT - |data|) + data;
      s.(spaces := Fill(Hand(s.spaces, id, Dicts), id, built), main := m.(past := m.dict, dict := Some(id), phase := Put))
  }

  /** Put the job on the compress list, with one more thread if there may be one. */
  function DoPut(c: Config, s: State): State
    requires MainCan(c, s, PutJob)
  {
    var m, k := s.main, |s.works|;
    var another := if s.threads < k + 1 && s.threads < c.procs then 1 else 0;
    s.(works := s.works + [Work(m.curr.value, More(s), m.past, NoDict, None, CheckOf(c.zlib, []), Queued, Unlisted)],
       waiting := s.waiting + [k], have := s.have + 1, threads := s.threads + another, idle := s.idle + another,
       main := m.(curr := None, past := None, phase := if More(s) then Top else Last))
  }

  function DoDropNext(s: State): State
    requires s.main.next.Some?
  {
    s.(spaces := Drop(s.spaces, s.main.next.value), main := s.main.(next := None, phase := Joining))
  }

  function MainStep(c: Config, s: State, step: Step): State
    requires MainCan(c, s, step)
  {
    match step
    case Get(id) => if s.main.phase.NeedRest? then DoSave(c, s, id) else DoRead(c, s, id)
    case Shift => DoShift(s)
    case CutOff => DoCut(c, s)
    case OfferDict(id) => DoOffer(c, s, id)
    case PutJob => DoPut(c, s)
    case DropNext => DoDropNext(s)
    case Join => s.(main := s.main.(phase := Done))
  }

  // ---- Steps of the compress threads ----

  predicate IsAt(s: State, k: nat, stage: Compressing) {
    k < |s.works| && s.works[k].compressing == stage
  }

  predicate CompressCan(c: Config, s: State, step: Step) {
    match step
    case Take => s.idle > 0 && s.have != 0 && s.waiting != [] && s.waiting[0] < |s.works|
    case Prime(k) => IsAt(s, k, Taken)
    case Fit(k, id) => IsAt(s, k, Primed) && CanGet(s, Outputs, id)
    case Deflate(k) => IsAt(s, k, Fitted) && s.works[k].out.Some? && k < |c.jobs|
    case Reserve(k) => IsAt(s, k, Deflated)
    case InsertJob(k) => IsAt(s, k, Reserved)
    case Checksum(k) => IsAt(s, k, Inserted)
    case Calculate(k) => IsAt(s, k, Summed)
    case _ => false
  }

  function DoTake(s: State): State
    requires s.waiting != [] && s.waiting[0] < |s.works| && s.idle > 0 && s.have > 0
  {
    var k := s.waiting[0];
    s.(waiting := s.waiting[1..], have := s.have - 1, idle := s.idle - 1,
       works := s.works[k := s.works[k].(compressing := Taken)])
  }

  /** Set the dictionary, then let go of it. */
  function DoPrime(s: State, k: nat): State
    requires k < |s.works|
  {
    var w := s.works[k];
    match w.dict
    case None => s.(works := s.works[k := w.(used := NoDict, compressing := Primed)])
    case Some(d) =>
      s.(spaces := Drop(s.spaces, d),
         works := s.works[k := w.(used := Dict(Window(At(s.spaces, d).data)), compressing := Primed)])
  }

  function DoFit(s: State, k: nat, id: nat): State
    requires k < |s.works|
  {
    s.(spaces := Hand(s.spaces, id, Outputs),
       works := s.works[k := s.works[k].(out := Some(id), compressing := Fitted)])
  }

  function DoDeflate(c: Config, s: State, k: nat): State
    requires k < |s.works| && k < |c.jobs| && s.works[k].out.Some?
  {
    var w := s.works[k];
    s.(spaces := Fill(s.spaces, w.out.value,
                      c.deflate(w.used, At(s.spaces, w.inp).data, c.jobs[k].lens, w.more)),
       works := s.works[k := w.(compressing := Deflated)])
  }

  /** Keep the input for the check, whatever the writer does. */
  function DoReserve(s: State, k: nat): State
    requires k < |s.works|
  {
    s.(spaces := Use(s.spaces, s.works[k].inp), works := s.works[k := s.works[k].(compressing := Reserved)])
  }

  function DoInsert(s: State, k: nat): State
    requires k < |s.works|
  {
    var list := Insert(s.list, k);
    s.(list := list, first := FirstOf(list),
       works := s.works[k := s.works[k].(compressing := Inserted, writing := Listed)])
  }

  function DoSum(c: Config, s: State, k: nat): State
    requires k < |s.works|
  {
    var w := s.works[k];
    s.(spaces := Drop(s.spaces, w.inp),
       works := s.works[k := w.(check := CheckOf(c.zlib, At(s.spaces, w.inp).data), compressing := Summed)])
  }

  /** Publish the check, and look for another job. */
  function DoCalculate(s: State, k: nat): State
    requires k < |s.works|
  {
    s.(idle := s.idle + 1, works := s.works[k := s.works[k].(compressing := Calculated)])
  }

  function CompressStep(c: Config, s: State, step: Step): State
    requires CompressCan(c, s, step)
  {
    match step
    case Take => DoTake(s)
    case Prime(k) => DoPrime(s, k)
    case Fit(k, id) => DoFit(s, k, id)
    case Deflate(k) => DoDeflate(c, s, k)
    case Reserve(k) => DoReserve(s, k)
    case InsertJob(k) => DoInsert(s, k)
    case Checksum(k) => DoSum(c, s, k)
    case Calculate(k) => DoCalculate(s, k)
  }

  // ---- Steps of the write thread ----

  /** The writer is at this point of the job it is writing. */
  predicate IsWriting(s: State, stage: Writing) {
    s.writer.phase.Running? && s.writer.seqno < |s.works| && s.works[s.writer.seqno].writing == stage
  }

  predicate WriterCan(c: Config, s: State, step: Step) {
    match step
    case Header => s.writer.phase.Starting?
    case Pop => s.writer.phase.Running? && s.first == s.writer.seqno && s.list != [] && s.list[0] < |s.works|
    case Count => IsWriting(s, Popped)
    case Write => IsWriting(s, Counted) && s.works[s.writer.seqno].out.Some?
    case AddCheck => IsWriting(s, Written) && s.works[s.writer.seqno].compressing == Calculated && s.writer.seqno < |c.jobs|
    case Trailer => s.writer.phase.Trailing?
    case _ => false
  }

  function DoPop(s: State): State
    requires s.list != [] && s.list[0] < |s.works|
  {
    var k := s.list[0];
    s.(list := s.list[1..], first := FirstOf(s.list[1..]), works := s.works[k := s.works[k].(writing := Popped)])
  }

  function DoCount(s: State): State
    requires s.writer.seqno < |s.works|
  {
    var k, w := s.writer.seqno, s.writer;
    var len := |At(s.spaces, s.works[k].inp).data|;
    var out := if s.works[k].out.Some? then |At(s.spaces, s.works[k].out.value).data| else 0;
    s.(spaces := Drop(s.spaces, s.works[k].inp), works := s.works[k := s.works[k].(writing := Counted)],
       writer := w.(len := len, ulen := Add(w.ulen, len), clen := Add(w.clen, out)))
  }

  function DoWrite(s: State): State
    requires s.writer.seqno < |s.works| && s.works[s.writer.seqno].out.Some?
  {
    var k, w := s.writer.seqno, s.writer;
    var out := s.works[k].out.value;
    s.(spaces := Drop(s.spaces, out), works := s.works[k := s.works[k].(writing := Written)],
       writer := w.(output := w.output + At(s.spaces, out).data))
  }

  function DoAddCheck(c: Config, s: State): State
    requires s.writer.seqno < |s.works| && s.writer.seqno < |c.jobs|
  {
    var k, w := s.writer.seqno, s.writer;
    s.(works := s.works[k := s.works[k].(writing := Freed)],
       writer := w.(check := Combine(w.check, s.works[k].check, w.len), seqno := k + 1,
                    phase := if s.works[k].more then Running else Trailing))
  }

  function WriterStep(c: Config, s: State, step: Step): State
    requires WriterCan(c, s, step)
  {
    match step
    case Header => s.(writer := s.writer.(phase := Running, output := c.header, check := CheckOf(c.zlib, [])))
    case Pop => DoPop(s)
    case Count => DoCount(s)
    case Write => DoWrite(s)
    case AddCheck => DoAddCheck(c, s)
    case Trailer =>
      var w := s.writer;
      s.(first := -1, writer := w.(phase := Ended, output := w.output + c.trailer(w.ulen, w.clen, w.check, |c.header|)))
  }

  // ---- Runs ----

  predicate Can(c: Config, s: State, step: Step) {
    MainCan(c, s, step) || CompressCan(c, s, step) || WriterCan(c, s, step)
  }

  function Next(c: Config, s: State, step: Step): State
    requires Can(c, s, step)
  {
    if MainCan(c, s, step) then MainStep(c, s, step)
    else if CompressCan(c, s, step) then CompressStep(c, s, step)
    else WriterStep(c, s, step)
  }

  /** `run` starts in the initial state and goes on by steps of any thread. */
  ghost predicate IsRun(c: Config, run: seq<State>) {
    |run| > 0 && run[0] == Initial(c) &&
    forall i :: 0 <= i < |run| - 1 ==> Goes(c, run[i], run[i + 1])
  }

  /** Some thread takes a step. */
  ghost predicate Goes(c: Config, s: State, s': State) {
    exists step :: Can(c, s, step) && s' == Next(c, s, step)
  }
}
