/** readsf~: the disk thread and the audio thread as one machine of atomic steps.

  A step is what one thread does between taking the mutex (or being woken with it) and giving
  it up.  Where the code goes round its loop without giving the mutex up, the machine allows
  a pause; it has all the interleavings of the program and a few more. */
module Readsf {
  import opened Arith

  const READSIZE := 65536
  const MAXVECSIZE := 128
  const MINBUFSIZE := 4 * READSIZE

  type byte = x: int | 0 <= x < 256

  datatype Request = Nothing | Open | Close | Quit | Busy

  datatype Play = Idle | Startup | Streaming

  /** Where the disk thread is; a waiting thread runs again once it has been signalled. */
  datatype Child =
    | Top
    | WaitTop(sig: bool)
    | ClosingOld
    | Opening
    | Feed
    | WaitFeed(sig: bool)
    | Reading(at: nat, want: nat)
    | ClosingLost
    | ClosingClose
    | ClosingQuit
    | Exited

  datatype Parent = Running | WaitData(sig: bool) | WaitQuit(sig: bool) | Freed

  /** A sound file as the reader sees it: whole frames of at least two bytes. */
  datatype File = File(data: seq<byte>, bpf: nat)

  ghost predicate GoodFile(f: File) {
    2 <= f.bpf && f.bpf * MAXVECSIZE <= READSIZE && |f.data| % f.bpf == 0
  }

  datatype State = State(
    // shared, under the mutex
    req: Request, buf: seq<byte>, vecsize: nat, bpf: nat,
    fifosize: nat, head: nat, tail: nat, eof: bool, play: Play,
    sigcountdown: int, sigperiod: int,
    // the two threads
    child: Child, fd: int, limit: int, parent: Parent,
    // history
    src: seq<byte>,       // contents of the file now being played
    base: nat,            // bytes delivered in completed rounds of the fifo
    out: seq<byte>,       // bytes delivered since the last open
    bangs: nat,           // done bangs since the last open
    fault: bool,          // opening or reading the file failed
    stale: bool,          // eof was set on behalf of an earlier open
    posted: Request, settled: bool,
    nextfd: nat, closed: seq<int>)

  datatype Event =
    | POpen(openbpf: nat) | PStart | PStop | PIdle | PPerform | PResume | PFree | PResumeFree
    | CTop | CWake | CClosedOld | COpened(f: File) | COpenFailed
    | CFeed | CScribble(junk: seq<byte>) | CRead(n: nat) | CReadFailed
    | CClosedLost | CClosedClose | CClosedQuit | CSpurious | PSpurious

  // ---------------------------------------------------------------------------------------
  // Condition variables
  // ---------------------------------------------------------------------------------------

  function SignalRequest(st: State): State {
    match st.child
    case WaitTop(_) => st.(child := WaitTop(true))
    case WaitFeed(_) => st.(child := WaitFeed(true))
    case _ => st
  }

  function SignalAnswer(st: State): State {
    match st.parent
    case WaitData(_) => st.(parent := WaitData(true))
    case WaitQuit(_) => st.(parent := WaitQuit(true))
    case _ => st
  }

  // ---------------------------------------------------------------------------------------
  // The parent (audio) thread
  // ---------------------------------------------------------------------------------------

  /** readsf_open */
  function OpenStep(st: State, openbpf: nat): State {
    SignalRequest(st.(req := Open, head := 0, tail := 0, eof := false, play := Startup, bpf := openbpf,
                      src := [], base := 0, out := [], bangs := 0, fault := false, stale := false,
                      posted := Open, settled := false))
  }

  /** readsf_stop */
  function StopStep(st: State): State {
    SignalRequest(st.(play := Idle, req := Close, posted := Close, settled := false))
  }

  function Want(st: State): nat {
    st.vecsize * st.bpf
  }

  /** The fifo looks empty, or as good as: fewer than Want bytes, short of the last one. */
  predicate Starved(st: State) {
    st.head >= st.tail && st.head < st.tail + Want(st) - 1
  }

  /** readsf_perform, from the top of its waiting loop. */
  function PerformStep(st: State): State
    requires st.bpf > 0
  {
    if !st.eof && Starved(st) then SignalRequest(st).(parent := WaitData(false))
    else if st.eof && Starved(st) then FinishStep(st)
    else DeliverStep(st)
  }

  /** The last, partial vector; the rest of it is zeros. */
  function FinishStep(st: State): State
    requires st.bpf > 0
  {
    var xfersize := (st.head - st.tail + 1) / st.bpf;
    st.(parent := Running, play := Idle, bangs := st.bangs + 1,
        out := st.out + Slice(st.buf, st.tail, xfersize * st.bpf))
  }

  function DeliverStep(st: State): State {
    var tail1 := st.tail + Want(st);
    var wrap := tail1 >= st.fifosize;
    var st1 := st.(parent := Running, out := st.out + Slice(st.buf, st.tail, Want(st)),
                   tail := if wrap then 0 else tail1, base := if wrap then st.base + st.fifosize else st.base,
                   sigcountdown := st.sigcountdown - 1);
    if st1.sigcountdown <= 0 then SignalRequest(st1).(sigcountdown := st1.sigperiod) else st1
  }

  function Slice(buf: seq<byte>, at: int, n: int): seq<byte> {
    if 0 <= at && 0 <= n && at + n <= |buf| then buf[at..at + n] else []
  }

  /** readsf_free, up to its first wait. */
  function FreeStep(st: State): State {
    SignalRequest(st.(req := Quit, posted := Quit, settled := false)).(parent := WaitQuit(false))
  }

  function ResumeFreeStep(st: State): State {
    if st.req == Nothing then st.(parent := Freed) else SignalRequest(st).(parent := WaitQuit(false))
  }

  // ---------------------------------------------------------------------------------------
  // The child (disk) thread
  // ---------------------------------------------------------------------------------------

  /** The label "lost": give up the stream, closing its file. */
  function Lost(st: State): State {
    var st1 := if st.req == Busy then st.(req := Nothing) else st;
    if st1.fd >= 0 then st1.(eof := if st1.req != Open then true else st1.eof, child := ClosingLost)
    else SignalAnswer(st1.(child := Top))
  }

  function TopStep(st: State): State {
    match st.req
    case Nothing => SignalAnswer(st).(child := WaitTop(false))
    case Open => st.(req := Busy, settled := true, child := if st.fd >= 0 then ClosingOld else Opening)
    case Close =>
      if st.fd >= 0 then st.(child := ClosingClose)
      else SignalAnswer(st.(req := Nothing, settled := true, child := Top))
    case Quit =>
      if st.fd >= 0 then st.(child := ClosingQuit)
      else SignalAnswer(st.(req := Nothing, settled := true, child := Exited))
    case Busy => st
  }

  /** sys_close */
  function CloseFd(st: State): State {
    st.(closed := st.closed + [st.fd], fd := -1)
  }

  function ClosedOldStep(st: State): State {
    var st1 := CloseFd(st);
    if st1.req != Busy then Lost(st1) else st1.(child := Opening)
  }

  function FifoSize(bufsize: nat, bpf: nat): nat
    requires bpf > 0
  {
    bufsize - bufsize % (bpf * MAXVECSIZE)
  }

  function OpenedStep(st: State, f: File): State
    requires f.bpf > 0 && st.vecsize > 0
  {
    var st1 := st.(fd := st.nextfd, nextfd := st.nextfd + 1, bpf := f.bpf, limit := |f.data|);
    if st1.req != Busy then Lost(st1)
    else
      var size := FifoSize(|st.buf|, f.bpf);
      var period := size / (16 * f.bpf * st.vecsize);
      st1.(head := 0, fifosize := size, sigperiod := period, sigcountdown := period, child := Feed, src := f.data)
  }

  /** The open failed: eof is set whether or not a newer request has come in. */
  function OpenFailedStep(st: State): State {
    Lost(st.(eof := true, fault := st.fault || st.req == Busy, stale := st.stale || st.req != Busy))
  }

  /** How much to read now, or nothing when the fifo is too full. */
  function WantRead(st: State): (r: int) {
    var n :=
      if st.head >= st.tail then
        if st.tail != 0 || st.fifosize - st.head > READSIZE then
          (if st.fifosize - st.head > READSIZE then READSIZE else st.fifosize - st.head)
        else -1
      else if st.tail - st.head - 1 < READSIZE then -1
      else READSIZE;
    if n >= 0 && st.limit >= 0 && n > st.limit then st.limit else n
  }

  /** The fifo is the most whole vectors of 128 frames that the buffer holds. */
  lemma FifoSizeNumber(bufsize: nat, bpf: nat)
    requires bpf > 0
    ensures var r := FifoSize(bufsize, bpf); r <= bufsize < r + 128 * bpf && r % (128 * bpf) == 0
  {
    DivMod(bufsize, 128 * bpf);
    DivIs(FifoSize(bufsize, bpf), 128 * bpf, bufsize / (128 * bpf), 0);
  }

  /**
   * In numbers: with the head before the tail the thread waits if fewer than 65536 bytes are free; otherwise it waits
   * if the tail stands at 0 and no more than 65536 bytes are left to the end of the fifo.  If it does not wait it
   * reads 65536 bytes, to the end of the fifo, or what the file has left, whichever is least.
   */
  lemma WantReadNumber(st: State)
    requires st.head <= st.fifosize
    ensures var room, left := st.fifosize - st.head, st.tail - st.head - 1;
      && (WantRead(st) < 0 <==> if st.head >= st.tail then st.tail == 0 && room <= 65536 else left < 65536)
      && (WantRead(st) >= 0 ==>
            && WantRead(st) <= 65536 && (st.head >= st.tail ==> WantRead(st) <= room)
            && (st.limit >= 0 ==> WantRead(st) <= st.limit)
            && (WantRead(st) == 65536 || (st.head >= st.tail && WantRead(st) == room) || WantRead(st) == st.limit))
  {
  }

  function FeedStep(st: State): State {
    if st.req != Busy || st.eof then Lost(st)
    else if WantRead(st) < 0 then SignalAnswer(st).(child := WaitFeed(false))
    else st.(child := Reading(st.head, WantRead(st)))
  }

  /** Put data into the buffer. */
  function Blit(buf: seq<byte>, at: nat, data: seq<byte>): (r: seq<byte>)
    ensures |r| == |buf|
  {
    if at + |data| <= |buf| then buf[..at] + data + buf[at + |data|..] else buf
  }

  /** The buffer once read() has delivered the next n bytes of the file. */
  function ReadBuf(st: State, n: nat): seq<byte>
    requires st.child.Reading?
  {
    var got := st.base + (if st.head >= st.tail then st.head else st.fifosize + st.head);
    if got + n <= |st.src| then Blit(st.buf, st.child.at, st.src[got..got + n]) else st.buf
  }

  function ReadStep(st: State, n: nat): State
    requires st.child.Reading?
  {
    CountStep(st.(buf := ReadBuf(st, n)), n)
  }

  /** n bytes have been read and, if nobody wants anything else by now, are counted in. */
  function CountStep(st: State, n: nat): State {
    if st.req != Busy then Lost(st)
    else if n == 0 then Lost(st.(eof := true, fault := st.fault || st.limit > 0))
    else
      var head1 := st.head + n;
      var st2 := st.(head := if head1 == st.fifosize then 0 else head1, limit := st.limit - n);
      if st2.limit <= 0 then Lost(st2.(eof := true))
      else SignalAnswer(st2.(child := Feed))
  }

  function ReadFailedStep(st: State): State {
    if st.req != Busy then Lost(st) else Lost(st.(fault := true))
  }

  function ClosedCloseStep(st: State): State {
    var st1 := CloseFd(st);
    SignalAnswer(if st1.req == Close then st1.(req := Nothing, settled := true, child := Top) else st1.(child := Top))
  }

  function ClosedQuitStep(st: State): State {
    SignalAnswer(CloseFd(st).(req := Nothing, settled := true, child := Exited))
  }

  // ---------------------------------------------------------------------------------------
  // Steps and runs
  // ---------------------------------------------------------------------------------------

  ghost predicate Enabled(st: State, ev: Event) {
    match ev
    case POpen(b) => st.parent == Running && b >= 2
    case PStart => st.parent == Running && st.play == Startup
    case PStop => st.parent == Running
    case PIdle => st.parent == Running && st.play != Streaming
    case PPerform => st.parent == Running && st.play == Streaming && st.bpf > 0
    case PResume => st.parent == WaitData(true) && st.bpf > 0
    case PFree => st.parent == Running
    case PResumeFree => st.parent == WaitQuit(true)
    case CTop => st.child == Top && st.req != Busy
    case CWake => st.child == WaitTop(true) || st.child == WaitFeed(true)
    case CClosedOld => st.child == ClosingOld
    case COpened(f) => st.child == Opening && GoodFile(f) && st.vecsize > 0
    case COpenFailed => st.child == Opening
    case CFeed => st.child == Feed
    case CScribble(junk) => st.child.Reading? && |junk| == st.child.want && st.child.at + st.child.want <= |st.buf|
    case CRead(n) => st.child.Reading? && n <= st.child.want
    case CReadFailed => st.child.Reading?
    case CClosedLost => st.child == ClosingLost
    case CClosedClose => st.child == ClosingClose
    case CClosedQuit => st.child == ClosingQuit
    case CSpurious => st.child.WaitTop? || st.child.WaitFeed?
    case PSpurious => st.parent.WaitData? || st.parent.WaitQuit?
  }

  ghost function Next(st: State, ev: Event): State
    requires Enabled(st, ev)
  {
    match ev
    case POpen(b) => OpenStep(st, b)
    case PStart => st.(play := Streaming)
    case PStop => StopStep(st)
    case PIdle => st
    case PPerform => PerformStep(st)
    case PResume => PerformStep(st)
    case PFree => FreeStep(st)
    case PResumeFree => ResumeFreeStep(st)
    case CTop => TopStep(st)
    case CWake => st.(child := if st.child.WaitTop? then Top else Feed)
    case CClosedOld => ClosedOldStep(st)
    case COpened(f) => OpenedStep(st, f)
    case COpenFailed => OpenFailedStep(st)
    case CFeed => FeedStep(st)
    case CScribble(junk) => st.(buf := Blit(st.buf, st.child.at, junk))
    case CRead(n) => ReadStep(st, n)
    case CReadFailed => ReadFailedStep(st)
    case CClosedLost => SignalAnswer(CloseFd(st).(child := Top))
    case CClosedClose => ClosedCloseStep(st)
    case CClosedQuit => ClosedQuitStep(st)
    case CSpurious => SignalRequest(st)
    case PSpurious => SignalAnswer(st)
  }

  /** Just after readsf_new. */
  ghost predicate Init(st: State) {
    && st.req == Nothing && st.play == Idle && st.child == Top && st.parent == Running && st.fd == -1
    && |st.buf| >= MINBUFSIZE && st.vecsize > 0 && MAXVECSIZE % st.vecsize == 0 && st.bpf >= 2
    && st.fifosize == st.head == st.tail == 0 && !st.eof
    && st.src == [] && st.out == [] && st.base == 0 && st.bangs == 0 && !st.fault && !st.stale
    && st.settled && st.nextfd == 0 && st.closed == []
  }
}
