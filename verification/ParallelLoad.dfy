/** Reading ahead in `load` and `load_read` of `examples/pgz.c`: while the main
    thread uses one buffer, a reader thread fills the other. */
module ParallelLoad {
  import opened Basics
  import opened Streams

  // ---- State ----

  /** The reader waits for the lock's value, has stored `n` bytes, or is gone. */
  datatype Reader = NotStarted | Waiting | Filling(n: nat) | Exited

  /** The main thread uses the buffer it has been given, or is in `load`. */
  datatype Main = Using | Loading

  /** `buf` and `buf2` are the buffers, `which` tells which one is read into (or
      -1), `len` is what the reader has reported, `value` the lock's value;
      `current` is the buffer in use, with `left` bytes when it was given;
      `loads` counts the completed calls. */
  datatype State<T> = State(buf: seq<T>, buf2: seq<T>, which: int, len: nat, value: nat, offset: nat, reader: Reader,
                            main: Main, current: int, left: nat, short: bool, eof: bool, loads: nat)

  datatype Step = Call | Receive | StartFill | FillByte | EndFill

  function Buffer<T>(s: State<T>, which: int): seq<T> {
    if which == 1 then s.buf else s.buf2
  }

  ghost predicate IsInitial<T>(s: State<T>) {
    |s.buf| == BUF && |s.buf2| == BUF && s.which == -1 && s.offset == 0 && s.reader == NotStarted && s.value == 0 &&
    s.main == Using && s.current == -1 && s.left == 0 && !s.short && !s.eof && s.loads == 0 && s.len == 0
  }

  predicate Can<T>(file: seq<T>, s: State<T>, step: Step) {
    match step
    case Call => s.main == Using
    case Receive => s.main == Loading && s.value == 0 && !s.reader.Filling?
    case StartFill => s.reader == Waiting && s.value == 1
    case FillByte => s.reader.Filling? && s.reader.n < BUF && s.offset + s.reader.n < |file| && |Buffer(s, s.which)| == BUF
    case EndFill => s.reader.Filling? && (s.reader.n == BUF || s.offset + s.reader.n >= |file|)
  }

  function Next<T>(file: seq<T>, s: State<T>, step: Step): State<T>
    requires Can(file, s, step)
  {
    match step
    case Call =>
      if s.short then s.(eof := true, left := 0, loads := s.loads + 1)
      else if s.which == -1 then s.(which := 1, value := 1, reader := Waiting, main := Loading)
      else s.(main := Loading)
    case Receive =>
      var t := s.(main := Using, current := s.which, left := s.len, loads := s.loads + 1,
                  short := s.len < BUF, eof := s.len == 0);
      if s.len == BUF then t.(which := 1 - s.which, value := 1) else t.(which := -1)
    case StartFill => s.(reader := Filling(0))
    case FillByte =>
      var n := s.reader.n;
      if s.which == 1 then s.(buf := s.buf[n := file[s.offset + n]], reader := Filling(n + 1))
      else s.(buf2 := s.buf2[n := file[s.offset + n]], reader := Filling(n + 1))
    case EndFill =>
      s.(len := s.reader.n, offset := s.offset + s.reader.n, value := 0,
         reader := if s.reader.n == BUF then Waiting else Exited)
  }

  // ---- What every step keeps ----

  /** The bytes that the main thread was given, where they were put. */
  function Given<T>(s: State<T>): seq<T> {
    if s.left <= |Buffer(s, s.current)| then Buffer(s, s.current)[..s.left] else []
  }

  ghost predicate Inv<T>(file: seq<T>, s: State<T>) {
    |s.buf| == BUF && |s.buf2| == BUF && s.offset <= |file| && s.left <= BUF && s.len <= BUF &&
    (s.which == -1 || s.which == 0 || s.which == 1) && s.value <= 1 &&
    (s.reader.Filling? ==>
      s.value == 1 && s.which != -1 && s.reader.n <= BUF && s.offset + s.reader.n <= |file| &&
      Buffer(s, s.which)[..s.reader.n] == file[s.offset..s.offset + s.reader.n]) &&
    (s.main == Using && s.which != -1 ==> s.current == 1 - s.which) &&
    (s.main == Loading ==> s.which != -1 && !s.short) &&
    (s.which == -1 && !s.short ==> s.reader == NotStarted && s.loads == 0 && s.offset == 0) &&
    (s.short ==> s.which == -1 && s.reader == Exited && s.offset == |file|) &&
    (s.which != -1 && s.value == 1 ==> s.reader.Waiting? || s.reader.Filling?) &&
    (s.which != -1 && s.value == 0 ==>
      s.reader == (if s.len == BUF then Waiting else Exited) && s.offset == Min((s.loads + 1) * BUF, |file|) &&
      s.len == |BlockAt(file, s.loads)| && Buffer(s, s.which)[..s.len] == BlockAt(file, s.loads)) &&
    (s.which != -1 && s.value == 1 ==> s.offset == s.loads * BUF) &&
    (s.loads > 0 && s.main == Using ==> Given(s) == BlockAt(file, s.loads - 1) && s.left == |Given(s)|) &&
    (s.short ==> s.loads * BUF > |file|) && (s.eof ==> s.left == 0 && s.short) &&
    (!s.short ==> s.loads * BUF <= |file|)
  }

  lemma InitialInv<T>(file: seq<T>, s: State<T>)
    requires IsInitial(s)
    ensures Inv(file, s)
  {
  }

  lemma BlockFacts<T>(file: seq<T>, k: nat)
    ensures (k + 1) * BUF <= |file| ==> |BlockAt(file, k)| == BUF
    ensures k * BUF <= |file| < (k + 1) * BUF ==> |BlockAt(file, k)| == |file| - k * BUF
    ensures k * BUF >= |file| ==> BlockAt(file, k) == []
    ensures (k + 1) * BUF == k * BUF + BUF
  {
  }

  lemma CallInv<T>(file: seq<T>, s: State<T>)
    requires Inv(file, s) && Can(file, s, Call)
    ensures Inv(file, Next(file, s, Call))
  {
    hide BlockAt;
    BlockFacts(file, s.loads);
  }

  lemma ReceiveInv<T>(file: seq<T>, s: State<T>)
    requires Inv(file, s) && Can(file, s, Receive)
    ensures Inv(file, Next(file, s, Receive))
  {
    hide BlockAt;
    BlockFacts(file, s.loads);
  }

  lemma FillInv<T>(file: seq<T>, s: State<T>)
    requires Inv(file, s) && Can(file, s, FillByte)
    ensures Inv(file, Next(file, s, FillByte))
  {
    hide BlockAt;
    var s', n := Next(file, s, FillByte), s.reader.n;
    assert Buffer(s', s.which)[..n + 1] == Buffer(s, s.which)[..n] + [file[s.offset + n]];
  }

  lemma EndInv<T>(file: seq<T>, s: State<T>)
    requires Inv(file, s) && Can(file, s, EndFill)
    ensures Inv(file, Next(file, s, EndFill))
  {
    BlockFacts(file, s.loads);
  }

  lemma StepInv<T>(file: seq<T>, s: State<T>, step: Step)
    requires Inv(file, s) && Can(file, s, step)
    ensures Inv(file, Next(file, s, step))
  {
    hide BlockAt;
    match step
    case Call => CallInv(file, s);
    case Receive => ReceiveInv(file, s);
    case StartFill =>
    case FillByte => FillInv(file, s);
    case EndFill => EndInv(file, s);
  }

  // ---- Every run ----

  ghost predicate Goes<T>(file: seq<T>, s: State<T>, s': State<T>) {
    exists step :: Can(file, s, step) && s' == Next(file, s, step)
  }

  ghost predicate IsRun<T>(file: seq<T>, run: seq<State<T>>) {
    |run| > 0 && IsInitial(run[0]) && forall i :: 0 <= i < |run| - 1 ==> Goes(file, run[i], run[i + 1])
  }

  lemma {:induction false} RunInv<T>(file: seq<T>, run: seq<State<T>>, i: nat)
    requires IsRun(file, run) && i < |run|
    ensures Inv(file, run[i])
    decreases i
  {
    hide Inv, Can, Next;
    InitialInv(file, run[0]);
    if i > 0 {
      RunInv(file, run, i - 1);
      assert Goes(file, run[i - 1], run[i - 1 + 1]);
      var step :| Can(file, run[i - 1], step) && run[i] == Next(file, run[i - 1], step);
      StepInv(file, run[i - 1], step);
    }
  }

  /** In every run, each call of `load` gives the same bytes as without the
      reader thread, and they stay where they were put for as long as the main
      thread uses them; nothing more is read once the end has been seen. */
  lemma SameAsUnthreaded<T>(file: seq<T>, run: seq<State<T>>, i: nat)
    requires IsRun(file, run) && i < |run| && run[i].main == Using && run[i].loads > 0
    ensures var s := run[i];
            s.left <= |Buffer(s, s.current)| && Buffer(s, s.current)[..s.left] == BlockAt(file, s.loads - 1) &&
            (s.short <==> s.loads * BUF > |file|) && (s.short ==> s.reader == Exited)
  {
    hide IsRun, BlockAt;
    RunInv(file, run, i);
    BlockFacts(file, run[i].loads - 1);
  }

  /** The reader never stores into the buffer in use. */
  lemma ReaderKeepsAway<T>(file: seq<T>, run: seq<State<T>>, i: nat)
    requires IsRun(file, run) && i < |run| && run[i].main == Using && run[i].reader.Filling?
    ensures run[i].which != run[i].current && run[i].which != -1
  {
    hide IsRun, BlockAt;
    RunInv(file, run, i);
  }

  /** A call of `load` comes to its end: main or reader can go on, and the reader
      is done after the bytes that are left to store. */
  lemma LoadGoesOn<T>(file: seq<T>, run: seq<State<T>>, i: nat)
    requires IsRun(file, run) && i < |run| && run[i].main == Loading
    ensures Can(file, run[i], Receive) || Can(file, run[i], StartFill) || Can(file, run[i], FillByte) || Can(file, run[i], EndFill)
  {
    hide IsRun, BlockAt;
    RunInv(file, run, i);
  }

  function Left<T>(s: State<T>): int {
    match s.reader
    case NotStarted => 0
    case Waiting => if s.value == 1 then BUF + 3 else 1
    case Filling(n) => BUF + 2 - n
    case Exited => 1
  }

  lemma LoadEnds<T>(file: seq<T>, s: State<T>, step: Step)
    requires Inv(file, s) && s.main == Loading && Can(file, s, step)
    ensures step.Receive? || 0 <= Left(Next(file, s, step)) < Left(s)
  {
    hide BlockAt;
  }
}
